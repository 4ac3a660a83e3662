/**
 * The Python `str` operations the ingestion code relies on: `strip`, `lower`, `title`,
 * `in` (substring test), `replace(x, '')`, `split(sep, 1)[1]` and `split(sep)[-1]`.
 * Characters outside ASCII are never re-cased and only ASCII white space is stripped.
 */
module Text {
  import opened Wrappers

  /** ASCII white space as Python's `str.isspace` sees it. */
  predicate IsSpace(c: char) {
    c == ' ' || ('\t' <= c <= '\r') || ('\U{1C}' <= c <= '\U{1F}')
  }

  predicate IsUpper(c: char) { 'A' <= c <= 'Z' }

  predicate IsLowerLetter(c: char) { 'a' <= c <= 'z' }

  /** A cased character in Python's sense, restricted to ASCII letters. */
  predicate IsLetter(c: char) { IsUpper(c) || IsLowerLetter(c) }

  function LowerChar(c: char): char {
    if IsUpper(c) then (c as int + 32) as char else c
  }

  function UpperChar(c: char): char {
    if IsLowerLetter(c) then (c as int - 32) as char else c
  }

  // ---------------------------------------------------------------- strip

  /** `s.lstrip()` */
  function TrimStart(s: string): (r: string)
    ensures |r| <= |s| && r == s[|s| - |r|..]
    ensures r == [] || !IsSpace(r[0])
    ensures forall i :: 0 <= i < |s| - |r| ==> IsSpace(s[i])
  {
    if s != [] && IsSpace(s[0]) then TrimStart(s[1..]) else s
  }

  /** `s.rstrip()` */
  function TrimEnd(s: string): (r: string)
    ensures |r| <= |s| && r == s[..|r|]
    ensures r == [] || !IsSpace(r[|r| - 1])
    ensures forall i :: |r| <= i < |s| ==> IsSpace(s[i])
  {
    if s != [] && IsSpace(s[|s| - 1]) then TrimEnd(s[..|s| - 1]) else s
  }

  /** `s.strip()` */
  function Strip(s: string): (r: string)
    ensures |r| <= |s|
    ensures r == [] || (!IsSpace(r[0]) && !IsSpace(r[|r| - 1]))
  {
    TrimEnd(TrimStart(s))
  }

  predicate AllSpace(s: string) {
    forall i :: 0 <= i < |s| ==> IsSpace(s[i])
  }

  /** A text that `strip` leaves alone: empty, or no white space at either end. */
  predicate Stripped(s: string) {
    s == [] || (!IsSpace(s[0]) && !IsSpace(s[|s| - 1]))
  }

  lemma {:induction false} TrimStartOver(pre: string, rest: string)
    requires AllSpace(pre)
    requires rest == [] || !IsSpace(rest[0])
    ensures TrimStart(pre + rest) == rest
  {
    if pre != [] {
      assert (pre + rest)[1..] == pre[1..] + rest;
      TrimStartOver(pre[1..], rest);
    }
  }

  lemma {:induction false} TrimEndOver(rest: string, post: string)
    requires AllSpace(post)
    requires rest == [] || !IsSpace(rest[|rest| - 1])
    ensures TrimEnd(rest + post) == rest
  {
    if post != [] {
      assert (rest + post)[..|rest + post| - 1] == rest + post[..|post| - 1];
      TrimEndOver(rest, post[..|post| - 1]);
    }
  }

  /** `strip` removes exactly the white space around a text and nothing else. */
  lemma StripExact(pre: string, core: string, post: string)
    requires AllSpace(pre) && AllSpace(post) && Stripped(core)
    ensures Strip(pre + core + post) == core
  {
    if core == [] {
      assert pre + core + post == pre + post;
      TrimStartOver(pre + post, []);
      assert pre + post + [] == pre + post;
      assert TrimStart(pre + post) == [];
    } else {
      assert pre + core + post == pre + (core + post);
      TrimStartOver(pre, core + post);
      TrimEndOver(core, post);
    }
  }

  /** `strip` is idempotent. */
  lemma StripIdempotent(s: string)
    ensures Strip(Strip(s)) == Strip(s)
  {
    var t := Strip(s);
    assert [] + t + [] == t;
    StripExact([], t, []);
  }

  // ---------------------------------------------------------------- case

  /** `s.lower()` */
  function Lower(s: string): (r: string)
    ensures |r| == |s|
  {
    if s == [] then [] else [LowerChar(s[0])] + Lower(s[1..])
  }

  /** `lower` works character by character. */
  lemma {:induction false} LowerAt(s: string)
    ensures forall i :: 0 <= i < |s| ==> Lower(s)[i] == LowerChar(s[i])
  {
    if s != [] {
      LowerAt(s[1..]);
    }
  }

  /** Case-insensitive equality: the `=ilike` operator without wildcards. */
  predicate ILikeEq(a: string, b: string) {
    Lower(a) == Lower(b)
  }

  /**
   * `s.title()` continued after a character that was (`prevCased`) or was not a letter:
   * a letter right after a letter is lower-cased, any other letter is upper-cased.
   */
  function TitleFrom(s: string, prevCased: bool): (r: string)
    ensures |r| == |s|
  {
    if s == [] then []
    else
      var c := s[0];
      var c' := if !IsLetter(c) then c else if prevCased then LowerChar(c) else UpperChar(c);
      [c'] + TitleFrom(s[1..], IsLetter(c))
  }

  /** `s.title()` */
  function Title(s: string): (r: string)
    ensures |r| == |s|
  {
    TitleFrom(s, false)
  }

  lemma {:induction false} TitleFromLower(s: string, prevCased: bool)
    ensures Lower(TitleFrom(s, prevCased)) == Lower(s)
  {
    if s != [] {
      TitleFromLower(s[1..], IsLetter(s[0]));
    }
  }

  /** A title-cased name matches the text it came from under `=ilike`. */
  lemma TitleILike(s: string)
    ensures ILikeEq(Title(s), s)
  {
    TitleFromLower(s, false);
  }

  // ---------------------------------------------------------------- substrings

  /** Python's `p in s` for strings. */
  function Contains(s: string, p: string): bool
  {
    |p| <= |s| && (s[..|p|] == p || Contains(s[1..], p))
  }

  predicate OccursAt(s: string, p: string, i: int) {
    0 <= i && i + |p| <= |s| && s[i..i + |p|] == p
  }

  /** `Contains` is the existence of an occurrence. */
  lemma {:induction false} ContainsOccurs(s: string, p: string)
    ensures Contains(s, p) <==> exists i :: OccursAt(s, p, i)
  {
    if |p| <= |s| {
      if s[..|p|] == p {
        assert OccursAt(s, p, 0);
      } else {
        ContainsOccurs(s[1..], p);
        if Contains(s[1..], p) {
          var i :| OccursAt(s[1..], p, i);
          assert s[i + 1..i + 1 + |p|] == s[1..][i..i + |p|];
          assert OccursAt(s, p, i + 1);
        } else {
          forall i | OccursAt(s, p, i) ensures i >= 1 && OccursAt(s[1..], p, i - 1) {
            assert s[1..][i - 1..i - 1 + |p|] == s[i..i + |p|];
          }
        }
      }
    }
  }

  /** `s.replace(p, '')`: occurrences removed left to right, without overlap. */
  function RemoveAll(s: string, p: string): (r: string)
    requires p != []
    ensures |r| <= |s|
    decreases |s|
  {
    if |s| < |p| then s
    else if s[..|p|] == p then RemoveAll(s[|p|..], p)
    else [s[0]] + RemoveAll(s[1..], p)
  }

  /** Removing a single character keeps every other character, in order. */
  lemma {:induction false} RemoveCharKeepsOthers(s: string, c: char)
    ensures c !in RemoveAll(s, [c])
    ensures (forall i :: 0 <= i < |s| ==> s[i] != c) ==> RemoveAll(s, [c]) == s
  {
    if |s| >= 1 {
      RemoveCharKeepsOthers(s[1..], c);
      if s[..1] != [c] {
        assert s[0] != c;
      }
    }
  }

  /** The index of the first occurrence of `c` in `s`. */
  function IndexOf(s: string, c: char): (r: Option<nat>)
    ensures r.Some? ==> r.value < |s| && s[r.value] == c && c !in s[..r.value]
    ensures r.None? ==> c !in s
  {
    if s == [] then None
    else if s[0] == c then Some(0)
    else match IndexOf(s[1..], c)
      case None => None
      case Some(i) => Some(i + 1)
  }

  /**
   * The text after the last separator found by a left-to-right, non-overlapping scan
   * (the last piece of `s.split(sep)`), or None when the scan finds no separator.
   */
  function AfterLast(s: string, sep: string): (r: Option<string>)
    requires sep != []
    ensures r.Some? ==> |r.value| < |s| && r.value == s[|s| - |r.value|..]
    decreases |s|
  {
    if |s| < |sep| then None
    else if s[..|sep|] == sep then
      match AfterLast(s[|sep|..], sep)
      case Some(t) => Some(t)
      case None => Some(s[|sep|..])
    else AfterLast(s[1..], sep)
  }

  /** The scan finds a separator exactly when the text contains one. */
  lemma {:induction false} AfterLastFinds(s: string, sep: string)
    requires sep != []
    ensures AfterLast(s, sep).Some? <==> Contains(s, sep)
    decreases |s|
  {
    if |s| >= |sep| {
      if s[..|sep|] == sep {
      } else {
        AfterLastFinds(s[1..], sep);
      }
    }
  }

  /** The last piece of `s.split(sep)` contains no separator. */
  lemma {:induction false} AfterLastIsLast(s: string, sep: string)
    requires sep != []
    requires AfterLast(s, sep).Some?
    ensures !Contains(AfterLast(s, sep).value, sep)
    decreases |s|
  {
    if s[..|sep|] == sep {
      var rest := s[|sep|..];
      AfterLastFinds(rest, sep);
      if AfterLast(rest, sep).Some? {
        AfterLastIsLast(rest, sep);
      }
    } else {
      AfterLastIsLast(s[1..], sep);
    }
  }

  /** A suffix of a suffix of `s` is a suffix of `s`. */
  lemma SuffixOfSuffix(s: string, k: nat, rest: string, x: string)
    requires k <= |s| && rest == s[k..]
    requires |x| <= |rest| && rest[|rest| - |x|..] == x
    ensures |x| <= |s| && s[|s| - |x|..] == x
  {
    assert s[|s| - |x|..] == rest[|rest| - |x|..];
  }

  /** The last piece of `s.split(sep)` follows an occurrence of the separator. */
  lemma {:induction false} AfterLastPreceded(s: string, sep: string)
    requires sep != []
    requires AfterLast(s, sep).Some?
    ensures var x := sep + AfterLast(s, sep).value; |x| <= |s| && s[|s| - |x|..] == x
    decreases |s|, 1
  {
    if s[..|sep|] == sep {
      AfterLastPrecededAtStart(s, sep);
    } else {
      var x := sep + AfterLast(s, sep).value;
      assert AfterLast(s[1..], sep) == AfterLast(s, sep);
      AfterLastPreceded(s[1..], sep);
      SuffixOfSuffix(s, 1, s[1..], x);
    }
  }

  /** `AfterLastPreceded` for a text that starts with the separator. */
  lemma {:induction false} AfterLastPrecededAtStart(s: string, sep: string)
    requires sep != [] && |sep| <= |s| && s[..|sep|] == sep
    ensures AfterLast(s, sep).Some?
    ensures var x := sep + AfterLast(s, sep).value; |x| <= |s| && s[|s| - |x|..] == x
    decreases |s|, 0
  {
    var rest := s[|sep|..];
    var x := sep + AfterLast(s, sep).value;
    if AfterLast(rest, sep).Some? {
      assert AfterLast(rest, sep) == AfterLast(s, sep);
      AfterLastPreceded(rest, sep);
      SuffixOfSuffix(s, |sep|, rest, x);
    } else {
      assert x == s[..|sep|] + rest;
    }
  }
}
