/** String operations of the standard library that the string-level rules are written in. */
module Text {
  import opened Wrappers

  /** Unicode White_Space, which is what `trim` takes off. */
  predicate IsWhite(c: char) {
    || '\t' <= c <= '\r' || c == ' ' || c == '\U{0085}' || c == '\U{00A0}' || c == '\U{1680}'
    || '\U{2000}' <= c <= '\U{200A}' || c == '\U{2028}' || c == '\U{2029}' || c == '\U{202F}'
    || c == '\U{205F}' || c == '\U{3000}'
  }

  function FoldChar(c: char): char {
    if 'A' <= c <= 'Z' then (c as int - 'A' as int + 'a' as int) as char else c
  }

  function Fold(s: string): (r: string)
    ensures |r| == |s| && forall i :: 0 <= i < |s| ==> r[i] == FoldChar(s[i])
  {
    seq(|s|, i requires 0 <= i < |s| => FoldChar(s[i]))
  }

  predicate StartsWith(s: string, p: string) {
    |p| <= |s| && s[..|p|] == p
  }

  function TrimStart(s: string): string {
    if s != "" && IsWhite(s[0]) then TrimStart(s[1..]) else s
  }

  function TrimEnd(s: string): string {
    if s != "" && IsWhite(s[|s| - 1]) then TrimEnd(s[..|s| - 1]) else s
  }

  function Trim(s: string): string {
    TrimEnd(TrimStart(s))
  }

  lemma FoldLast(s: string)
    requires s != ""
    ensures Fold(s)[|s| - 1] == '.' <==> s[|s| - 1] == '.'
  {
  }

  lemma FoldParts(h: string, k: nat)
    requires k <= |h|
    ensures Fold(h[k..]) == Fold(h)[k..] && (k < |h| ==> (Fold(h)[k] == '.' <==> h[k] == '.'))
  {
  }

  lemma FoldJoin(p: string, s: string)
    ensures Fold(p + s) == Fold(p) + Fold(s)
  {
  }

  lemma {:induction false} TrimEndIsPrefix(s: string)
    ensures StartsWith(s, TrimEnd(s))
    ensures TrimEnd(s) == "" || !IsWhite(TrimEnd(s)[|TrimEnd(s)| - 1])
    ensures TrimEnd(TrimEnd(s)) == TrimEnd(s)
  {
    if s != "" && IsWhite(s[|s| - 1]) {
      TrimEndIsPrefix(s[..|s| - 1]);
    }
  }

  lemma {:induction false} TrimStartIsSuffix(s: string)
    ensures |TrimStart(s)| <= |s| && s[|s| - |TrimStart(s)|..] == TrimStart(s)
    ensures TrimStart(s) == "" || !IsWhite(TrimStart(s)[0])
  {
    if s != "" && IsWhite(s[0]) {
      TrimStartIsSuffix(s[1..]);
    }
  }

  lemma {:induction false} TrimEndAfter(p: string, s: string)
    requires p == "" || !IsWhite(p[|p| - 1])
    ensures TrimEnd(p + s) == p + TrimEnd(s)
  {
    if s == "" {
      assert p + s == p;
    } else if IsWhite(s[|s| - 1]) {
      TrimEndAfter(p, s[..|s| - 1]);
      assert (p + s)[..|p + s| - 1] == p + s[..|s| - 1];
    }
  }

  lemma TrimIsAll(r: string)
    ensures Trim(r) == r <==> r == "" || (!IsWhite(r[0]) && !IsWhite(r[|r| - 1]))
  {
    TrimStartIsSuffix(r);
    TrimEndIsPrefix(TrimStart(r));
    if r != "" && !IsWhite(r[0]) {
      assert TrimStart(r) == r;
    }
  }

  const LETTERS := "abcdefghijklmnopqrstuvwxyz"
  const CAPITALS := "ABCDEFGHIJKLMNOPQRSTUVWXYZ"

  lemma LettersAre(c: char)
    ensures 'a' <= c <= 'z' <==> c in LETTERS
  {
    if 'a' <= c <= 'z' {
      assert LETTERS[c as int - 'a' as int] == c;
    }
  }

  lemma CapitalsAre(c: char)
    ensures 'A' <= c <= 'Z' <==> c in CAPITALS
  {
    if 'A' <= c <= 'Z' {
      assert CAPITALS[c as int - 'A' as int] == c;
    }
  }

  /** Folding takes each capital to its letter, and leaves every other character. */
  lemma FoldIsLowerCase(i: nat, c: char)
    requires i < 26
    ensures FoldChar(CAPITALS[i]) == LETTERS[i]
    ensures c !in CAPITALS ==> FoldChar(c) == c
  {
    CapitalsAre(c);
  }

  /** The characters with the property White_Space, by their numbers. */
  lemma WhiteAre(c: char)
    ensures IsWhite(c) <==>
      c as int in [9, 10, 11, 12, 13, 32, 133, 160, 5760, 8192, 8193, 8194, 8195, 8196, 8197, 8198, 8199, 8200, 8201, 8202,
                   8232, 8233, 8239, 8287, 12288]
  {
  }

  // --- substring search ------------------------------------------------------------------

  function Find(s: string, p: string): Option<nat> {
    if StartsWith(s, p) then Some(0)
    else if s == "" then None
    else match Find(s[1..], p)
      case Some(k) => Some(k + 1)
      case None => None
  }

  predicate OccursAt(s: string, p: string, k: nat) {
    k <= |s| && StartsWith(s[k..], p)
  }

  /** The first occurrence, and None only where there is none. */
  lemma {:induction false} FindIsFirst(s: string, p: string)
    ensures Find(s, p).Some? ==> OccursAt(s, p, Find(s, p).value)
    ensures forall j: nat :: OccursAt(s, p, j) ==> Find(s, p).Some? && Find(s, p).value <= j
  {
    if StartsWith(s, p) {
      assert s[0..] == s;
    } else if s == "" {
    } else {
      FindIsFirst(s[1..], p);
      if Find(s[1..], p).Some? {
        var k := Find(s[1..], p).value;
        assert s[1..][k..] == s[k + 1..];
      }
      forall j: nat | OccursAt(s, p, j) ensures Find(s, p).Some? && Find(s, p).value <= j {
        assert s[0..] == s;
        if j > 0 {
          assert s[1..][j - 1..] == s[j..];
          assert OccursAt(s[1..], p, j - 1);
        }
      }
    }
  }

  lemma FindAt(s: string, p: string, k: nat)
    requires OccursAt(s, p, k)
    requires forall j: nat :: j < k ==> !OccursAt(s, p, j)
    ensures Find(s, p) == Some(k)
  {
    FindIsFirst(s, p);
  }

  // --- splitting ------------------------------------------------------------------------

  /** What stands before and after the first occurrence of p. */
  function SplitOnce(s: string, p: string): Option<(string, string)> {
    match Find(s, p)
    case None => None
    case Some(k) =>
      FindIsFirst(s, p);
      Some((s[..k], s[k + |p|..]))
  }

  lemma SplitOnceAt(a: string, p: string, b: string)
    requires p != "" && p[0] !in a
    ensures SplitOnce(a + p + b, p) == Some((a, b))
  {
    var s := a + p + b;
    assert s[|a|..] == p + b;
    forall j: nat | j < |a| ensures !OccursAt(s, p, j) {
      assert s[j..][0] == a[j];
    }
    FindAt(s, p, |a|);
    assert s[..|a|] == a && s[|a| + |p|..] == b;
  }

  lemma SplitOnceNone(s: string, p: string)
    requires p != "" && p[0] !in s
    ensures SplitOnce(s, p) == None
  {
    FindIsFirst(s, p);
    forall k: nat ensures !OccursAt(s, p, k) {
      if k < |s| {
        assert s[k..][0] == s[k];
      }
    }
  }

  lemma SplitOnceParts(s: string, p: string)
    ensures SplitOnce(s, p).Some? ==> s == SplitOnce(s, p).value.0 + p + SplitOnce(s, p).value.1
  {
    FindIsFirst(s, p);
    if Find(s, p).Some? {
      var k := Find(s, p).value;
      assert s == s[..k] + s[k..][..|p|] + s[k + |p|..];
    }
  }

  /** Before the first occurrence of a character there is none of it. */
  lemma SplitOnceFirst(s: string, c: char)
    ensures SplitOnce(s, [c]).Some? ==> c !in SplitOnce(s, [c]).value.0
    ensures SplitOnce(s, [c]).None? ==> c !in s
  {
    FindIsFirst(s, [c]);
    forall j: nat | j < |s| && s[j] == c ensures OccursAt(s, [c], j) {
      assert s[j..][..1] == [c];
    }
  }

  lemma TrimKeeps(s: string, c: char)
    requires c !in s
    ensures c !in Trim(s)
  {
    TrimStartIsSuffix(s);
    TrimEndIsPrefix(TrimStart(s));
  }

  lemma TrimEnds(s: string)
    ensures Trim(s) != "" ==> !IsWhite(Trim(s)[0]) && !IsWhite(Trim(s)[|Trim(s)| - 1])
    ensures Trim(Trim(s)) == Trim(s)
  {
    TrimStartIsSuffix(s);
    TrimEndIsPrefix(TrimStart(s));
    TrimIsAll(Trim(s));
  }
}
