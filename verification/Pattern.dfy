/** Domain-suffix rules: a comparison of string tails against what it stands for, the labels of a
    DNS name. */
module Pattern {
  import opened Text

  function TrimDots(s: string): string {
    if s != "" && s[|s| - 1] == '.' then TrimDots(s[..|s| - 1]) else s
  }

  // --- the rule -----------------------------------------------------------------------

  function DropGlob(s: string): string {
    if StartsWith(s, "+.") || StartsWith(s, "*.") then s[2..] else s
  }

  function DropDot(s: string): string {
    if StartsWith(s, ".") then s[1..] else s
  }

  function NormalizeSuffix(key: string): string {
    TrimDots(DropDot(DropGlob(Fold(Trim(key)))))
  }

  function StripRoot(host: string): string {
    if host != "" && host[|host| - 1] == '.' then host[..|host| - 1] else host
  }

  predicate SuffixMatches(host: string, suffix: string) {
    suffix == "" ||
    var h := StripRoot(host);
    || Fold(h) == Fold(suffix)
    || (|h| > |suffix| &&
        var boundary := |h| - |suffix|;
        h[boundary - 1] == '.' && Fold(h[boundary..]) == Fold(suffix))
  }

  method AnySuffixMatches(host: string, suffixes: seq<string>) returns (any: bool)
    ensures any <==> exists s :: s in suffixes && SuffixMatches(host, s)
  {
    for i := 0 to |suffixes|
      invariant forall j :: 0 <= j < i ==> !SuffixMatches(host, suffixes[j])
    {
      if SuffixMatches(host, suffixes[i]) {
        return true;
      }
    }
    return false;
  }

  // --- labels -------------------------------------------------------------------------

  /** A name's labels, split at every dot. */
  function Labels(s: string): (r: seq<string>)
    ensures r != []
  {
    if s == "" then [""]
    else
      var rest := Labels(s[1..]);
      if s[0] == '.' then [""] + rest else [[s[0]] + rest[0]] + rest[1..]
  }

  function Joined(labels: seq<string>): string
    requires labels != []
  {
    if |labels| == 1 then labels[0] else labels[0] + "." + Joined(labels[1..])
  }

  lemma {:induction false} JoinedLabels(s: string)
    ensures Joined(Labels(s)) == s
  {
    if s != "" {
      var rest := Labels(s[1..]);
      JoinedLabels(s[1..]);
      if s[0] == '.' {
        assert Labels(s)[1..] == rest;
      } else {
        JoinedFirst(s[0], rest);
      }
    }
  }

  lemma JoinedFirst(c: char, rest: seq<string>)
    requires rest != []
    ensures Joined([[c] + rest[0]] + rest[1..]) == [c] + Joined(rest)
  {
    var longer := [[c] + rest[0]] + rest[1..];
    if |rest| > 1 {
      assert longer[1..] == rest[1..];
      assert ([c] + rest[0]) + "." + Joined(rest[1..]) == [c] + (rest[0] + "." + Joined(rest[1..]));
    }
  }

  lemma {:induction false} JoinedAppend(p: seq<string>, q: seq<string>)
    requires p != [] && q != []
    ensures Joined(p + q) == Joined(p) + "." + Joined(q)
  {
    if |p| == 1 {
      assert (p + q)[1..] == q;
    } else {
      JoinedAppend(p[1..], q);
      assert (p + q)[1..] == p[1..] + q;
    }
  }

  lemma FirstLabels(c: char, p: seq<string>, q: seq<string>)
    requires p != []
    ensures [""] + (p + q) == ([""] + p) + q
    ensures [[c] + (p + q)[0]] + (p + q)[1..] == ([[c] + p[0]] + p[1..]) + q
  {
  }

  lemma {:induction false} LabelsAppend(a: string, b: string)
    ensures Labels(a + "." + b) == Labels(a) + Labels(b)
  {
    var s := a + "." + b;
    if a == "" {
      assert s[1..] == b;
    } else {
      LabelsAppend(a[1..], b);
      assert s[1..] == a[1..] + "." + b && s[0] == a[0];
      FirstLabels(a[0], Labels(a[1..]), Labels(b));
    }
  }

  ghost predicate EndsWithLabels(whole: seq<string>, tail: seq<string>) {
    exists front: seq<string> :: whole == front + tail
  }

  predicate EndsAtDot(h: string, s: string) {
    h == s || (|h| > |s| && h[|h| - |s| - 1] == '.' && h[|h| - |s|..] == s)
  }

  lemma LabelsToText(h: string, s: string)
    requires EndsWithLabels(Labels(h), Labels(s))
    ensures EndsAtDot(h, s)
  {
    hide Labels, Joined;
    var front: seq<string> :| Labels(h) == front + Labels(s);
    JoinedLabels(h);
    JoinedLabels(s);
    if front == [] {
      assert [] + Labels(s) == Labels(s);
    } else {
      JoinedAppend(front, Labels(s));
      assert h == Joined(front) + "." + s;
    }
  }

  lemma TextToLabels(h: string, s: string)
    requires EndsAtDot(h, s)
    ensures EndsWithLabels(Labels(h), Labels(s))
  {
    hide Labels;
    if h == s {
      assert Labels(h) == [] + Labels(s);
    } else {
      var a := h[..|h| - |s| - 1];
      assert h == a + "." + s;
      LabelsAppend(a, s);
    }
  }

  /** Labels end with labels exactly where the string is the other one, or ends with a dot and
      the other one. */
  lemma EndsWithLabelsIs(h: string, s: string)
    ensures EndsWithLabels(Labels(h), Labels(s)) <==> EndsAtDot(h, s)
  {
    hide Labels, EndsWithLabels, EndsAtDot;
    if EndsWithLabels(Labels(h), Labels(s)) {
      LabelsToText(h, s);
    }
    if EndsAtDot(h, s) {
      TextToLabels(h, s);
    }
  }

  /** The rule: case folded and one root dot off the host, the suffix's labels are the host's
      last ones. Any suffix but the empty one, normalised or not. */
  lemma SuffixMatchIsLabelMatch(host: string, suffix: string)
    requires suffix != ""
    ensures SuffixMatches(host, suffix) <==> EndsWithLabels(Labels(Fold(StripRoot(host))), Labels(Fold(suffix)))
  {
    var h := StripRoot(host);
    EndsWithLabelsIs(Fold(h), Fold(suffix));
    if |h| > |suffix| {
      FoldParts(h, |h| - |suffix|);
      FoldParts(h, |h| - |suffix| - 1);
    }
    hide Labels, EndsWithLabels, FoldChar, StripRoot;
  }

  /** One root dot more or less on a host makes no difference: with the dot or without it, a host that
      ends in none matches by its labels. The empty suffix matches anything. */
  lemma RootDotIsIgnored(h: string, suffix: string)
    ensures suffix == "" ==> SuffixMatches(h, suffix)
    ensures suffix != "" ==>
      (SuffixMatches(h + ".", suffix) <==> EndsWithLabels(Labels(Fold(h)), Labels(Fold(suffix))))
    ensures suffix != "" && (h == "" || h[|h| - 1] != '.') ==>
      (SuffixMatches(h, suffix) <==> EndsWithLabels(Labels(Fold(h)), Labels(Fold(suffix))))
  {
    assert (h + ".")[..|h|] == h;
    if suffix != "" {
      SuffixMatchIsLabelMatch(h + ".", suffix);
      SuffixMatchIsLabelMatch(h, suffix);
    }
    hide Labels, EndsWithLabels, Fold, SuffixMatches;
  }

  /** A suffix with a root dot of its own matches no name written with one root dot or none. */
  lemma RootedSuffixNeverMatches(host: string, suffix: string)
    requires suffix != "" && suffix[|suffix| - 1] == '.'
    requires StripRoot(host) == "" || StripRoot(host)[|StripRoot(host)| - 1] != '.'
    ensures !SuffixMatches(host, suffix)
  {
    var h := StripRoot(host);
    FoldLast(suffix);
    if h != "" {
      FoldLast(h);
    }
    if |h| > |suffix| {
      FoldLast(h[|h| - |suffix|..]);
    }
    hide Fold;
  }

  // --- spellings ------------------------------------------------------------------------

  lemma {:induction false} TrimDotsAfter(p: string, s: string)
    ensures TrimDots(p + s) == if TrimDots(s) == "" then TrimDots(p) else p + TrimDots(s)
  {
    if s == "" {
      assert p + s == p;
    } else if s[|s| - 1] == '.' {
      TrimDotsAfter(p, s[..|s| - 1]);
      assert (p + s)[..|p + s| - 1] == p + s[..|s| - 1];
    }
  }

  /** The bare text of a rule: its trailing white space off, case folded. */
  function Bare(b: string): string {
    Fold(TrimEnd(b))
  }

  lemma Spelled(p: string, b: string)
    requires p == "+." || p == "*." || p == "."
    ensures Fold(Trim(p + b)) == p + Bare(b)
  {
    assert TrimStart(p + b) == p + b;
    TrimEndAfter(p, b);
    FoldJoin(p, TrimEnd(b));
    assert Fold(p) == p;
  }

  lemma GlobSpelling(p: string, b: string)
    requires p == "+." || p == "*."
    ensures NormalizeSuffix(p + b) == TrimDots(DropDot(Bare(b)))
  {
    hide Bare, Fold, Trim, TrimDots, DropDot;
    Spelled(p, b);
    assert (p + Bare(b))[2..] == Bare(b);
    assert (p + Bare(b))[..2] == p;
  }

  lemma DotSpelling(b: string)
    ensures NormalizeSuffix("." + b) == TrimDots(Bare(b))
  {
    hide Bare, Fold, Trim, TrimDots;
    Spelled(".", b);
    assert ("." + Bare(b))[1..] == Bare(b);
    assert ("." + Bare(b))[0] == '.';
  }

  lemma BareSpelling(b: string)
    requires b == "" || !IsWhite(b[0])
    ensures NormalizeSuffix(b) == TrimDots(DropDot(DropGlob(Bare(b))))
  {
  }

  predicate Agree(b: string) {
    NormalizeSuffix(b) == NormalizeSuffix("." + b) == NormalizeSuffix("+." + b) == NormalizeSuffix("*." + b)
  }

  /** Nothing at the front that a spelling would take for its own. */
  predicate Plain(s: string) {
    s == "" || !(IsWhite(s[0]) || StartsWith(s, ".") || StartsWith(s, "+.") || StartsWith(s, "*."))
  }

  predicate OnlyDots(s: string) {
    forall i :: 0 <= i < |s| ==> s[i] == '.'
  }

  lemma {:induction false} TrimDotsEmpty(s: string)
    ensures TrimDots(s) == "" <==> OnlyDots(s)
  {
    if s != "" && s[|s| - 1] == '.' {
      TrimDotsEmpty(s[..|s| - 1]);
    }
  }

  // --- when the four spellings agree -------------------------------------------------------------

  lemma ShorterTail(p: string, r: string)
    ensures |TrimDots(r)| <= |TrimDots(p + r)|
    ensures p != "" && !OnlyDots(p) ==> |TrimDots(r)| < |TrimDots(p + r)|
    ensures p != "" && !OnlyDots(r) ==> |TrimDots(r)| < |TrimDots(p + r)|
  {
    TrimDotsAfter(p, r);
    TrimDotsEmpty(p);
    TrimDotsEmpty(r);
  }

  lemma DropsAreShorter(s: string)
    ensures |TrimDots(DropDot(s))| <= |TrimDots(s)|
    ensures |TrimDots(DropGlob(s))| <= |TrimDots(s)|
    ensures StartsWith(s, ".") && !OnlyDots(s) ==> |TrimDots(DropDot(s))| < |TrimDots(s)|
    ensures StartsWith(s, "+.") || StartsWith(s, "*.") ==> |TrimDots(DropGlob(s))| < |TrimDots(s)|
  {
    hide TrimDots;
    if StartsWith(s, ".") {
      assert s == "." + s[1..];
      ShorterTail(".", s[1..]);
      assert OnlyDots(s[1..]) ==> OnlyDots(s);
    }
    if StartsWith(s, "+.") || StartsWith(s, "*.") {
      assert s == s[..2] + s[2..];
      ShorterTail(s[..2], s[2..]);
      assert !OnlyDots(s[..2]) by {
        assert s[..2][0] != '.';
      }
    }
  }

  lemma FoldStarts(s: string, p: string)
    requires p == "." || p == "+." || p == "*."
    ensures StartsWith(Fold(s), p) <==> StartsWith(s, p)
  {
    if |p| <= |s| {
      assert StartsWith(s, p) <==> forall i :: 0 <= i < |p| ==> s[i] == p[i];
      assert StartsWith(Fold(s), p) <==> forall i :: 0 <= i < |p| ==> FoldChar(s[i]) == p[i];
    }
  }

  lemma TrimEndStarts(b: string, p: string)
    requires p == "." || p == "+." || p == "*."
    ensures StartsWith(TrimEnd(b), p) <==> StartsWith(b, p)
  {
    TrimEndIsPrefix(b);
    var t := TrimEnd(b);
    assert t == b[..|t|];
    if StartsWith(b, p) {
      assert b[|p| - 1] == p[|p| - 1];
      PrefixTrimmed(b, |p| - 1);
      assert t[..|p|] == b[..|p|];
    } else if |p| <= |t| {
      assert t[..|p|] == b[..|p|];
    }
    hide TrimEnd;
  }

  lemma FoldOnlyDots(s: string)
    ensures OnlyDots(Fold(s)) <==> OnlyDots(s)
  {
  }

  lemma BareStarts(b: string)
    ensures OnlyDots(Bare(b)) <==> OnlyDots(TrimEnd(b))
    ensures StartsWith(Bare(b), ".") <==> StartsWith(b, ".")
    ensures StartsWith(Bare(b), "+.") <==> StartsWith(b, "+.")
    ensures StartsWith(Bare(b), "*.") <==> StartsWith(b, "*.")
  {
    hide OnlyDots, Fold, TrimEnd, StartsWith;
    FoldOnlyDots(TrimEnd(b));
    TrimEndStarts(b, ".");
    TrimEndStarts(b, "+.");
    TrimEndStarts(b, "*.");
    FoldStarts(TrimEnd(b), ".");
    FoldStarts(TrimEnd(b), "+.");
    FoldStarts(TrimEnd(b), "*.");
  }

  lemma {:induction false} PrefixTrimmed(b: string, k: nat)
    ensures k < |b| && !IsWhite(b[k]) ==> k < |TrimEnd(b)| && TrimEnd(b)[k] == b[k]
  {
    if b != "" && IsWhite(b[|b| - 1]) {
      PrefixTrimmed(b[..|b| - 1], k);
    }
  }

  lemma FoldedDots(s: string)
    requires OnlyDots(s)
    ensures OnlyDots(DropDot(s)) && DropGlob(s) == s && TrimDots(s) == ""
  {
    TrimDotsEmpty(s);
  }

  /** Leading white space: bare, it goes; behind a dot, it stays. */
  lemma WhiteInFront(b: string)
    requires b != "" && IsWhite(b[0])
    ensures TrimEnd(b) != "" ==> |NormalizeSuffix(b)| < |TrimDots(Bare(b))|
    ensures TrimEnd(b) == "" ==> NormalizeSuffix(b) == ""
  {
    var core := TrimStart(b);
    TrimStartIsSuffix(b);
    var w := b[..|b| - |core|];
    assert b == w + core;
    if core == "" {
      AllWhite(b);
    } else {
      CoreStays(core);
      TrimEndSplits(w, core);
      FoldJoin(w, TrimEnd(core));
      var x := Fold(TrimEnd(core));
      assert !OnlyDots(Fold(w)) by {
        assert Fold(w)[0] != '.';
      }
      ShorterTail(Fold(w), x);
      DropsAreShorter(x);
      DropsAreShorter(DropGlob(x));
      hide TrimDots, DropDot, DropGlob, OnlyDots, Fold, TrimStart, TrimEnd;
    }
  }

  lemma CoreStays(core: string)
    requires core != "" && !IsWhite(core[0])
    ensures TrimEnd(core) != ""
  {
    PrefixTrimmed(core, 0);
  }

  lemma {:induction false} TrimEndSplits(w: string, core: string)
    requires TrimEnd(core) != ""
    ensures TrimEnd(w + core) == w + TrimEnd(core)
  {
    if IsWhite(core[|core| - 1]) {
      TrimEndSplits(w, core[..|core| - 1]);
      assert (w + core)[..|w + core| - 1] == w + core[..|core| - 1];
    }
  }

  lemma {:induction false} AllWhite(b: string)
    requires TrimStart(b) == ""
    ensures TrimEnd(b) == "" && Trim(b) == "" && NormalizeSuffix(b) == ""
  {
    AllWhiteEnd(b);
  }

  lemma {:induction false} TrimStartAll(b: string)
    requires TrimStart(b) == ""
    ensures forall i :: 0 <= i < |b| ==> IsWhite(b[i])
  {
    if b != "" {
      TrimStartAll(b[1..]);
      assert forall i :: 0 < i < |b| ==> b[i] == b[1..][i - 1];
    }
  }

  lemma {:induction false} AllWhiteEnd(b: string)
    requires TrimStart(b) == ""
    ensures TrimEnd(b) == ""
  {
    TrimStartAll(b);
    TrimEndIsPrefix(b);
    if TrimEnd(b) != "" {
      PrefixIsWhite(b, TrimEnd(b));
    }
  }

  lemma PrefixIsWhite(b: string, p: string)
    requires StartsWith(b, p) && p != "" && forall i :: 0 <= i < |b| ==> IsWhite(b[i])
    ensures IsWhite(p[|p| - 1])
  {
    assert p[|p| - 1] == b[|p| - 1];
  }

  /** The four spellings of b are one rule exactly if b is nothing but dots, or starts with no
      white space, no dot and neither "+." nor "*.". */
  lemma SpellingsAgreeIff(b: string)
    ensures Agree(b) <==> OnlyDots(TrimEnd(b)) || Plain(b)
  {
    var t := Bare(b);
    DotSpelling(b);
    GlobSpelling("+.", b);
    GlobSpelling("*.", b);
    BareStarts(b);
    DropsAreShorter(t);
    DropsAreShorter(DropGlob(t));
    hide TrimDots, NormalizeSuffix, Bare, Fold;
    if b != "" && IsWhite(b[0]) {
      WhiteInFront(b);
      TrimEndIsPrefix(b);
      if TrimEnd(b) == "" {
        EmptyBare(b);
      } else {
        assert TrimEnd(b)[0] == b[0];
      }
    } else {
      BareSpelling(b);
      if OnlyDots(TrimEnd(b)) {
        FoldedDots(t);
        FoldedDots(DropDot(t));
      }
    }
  }

  lemma EmptyBare(b: string)
    requires TrimEnd(b) == ""
    ensures Bare(b) == "" && TrimDots(Bare(b)) == ""
  {
  }

  // --- normalising twice ------------------------------------------------------------------------

  lemma {:induction false} TrimDotsIsPrefix(s: string)
    ensures StartsWith(s, TrimDots(s))
    ensures TrimDots(s) == "" || TrimDots(s)[|TrimDots(s)| - 1] != '.'
  {
    if s != "" && s[|s| - 1] == '.' {
      TrimDotsIsPrefix(s[..|s| - 1]);
    }
  }

  predicate Lower(s: string) {
    forall i :: 0 <= i < |s| ==> FoldChar(s[i]) == s[i]
  }

  /** A rule is lower case and ends in no dot. */
  lemma RuleIsFolded(key: string)
    ensures Lower(NormalizeSuffix(key))
    ensures NormalizeSuffix(key) == "" || NormalizeSuffix(key)[|NormalizeSuffix(key)| - 1] != '.'
  {
    var k := Fold(Trim(key));
    assert Lower(k);
    var body := DropDot(DropGlob(k));
    assert Lower(body);
    TrimDotsIsPrefix(body);
    hide Trim, TrimDots, FoldChar;
  }

  lemma NormalizeIsShorter(r: string)
    ensures |NormalizeSuffix(r)| <= |Trim(r)| <= |r|
    ensures |Trim(r)| == |r| ==> Trim(r) == r
    ensures StartsWith(Trim(r), ".") || StartsWith(Trim(r), "+.") || StartsWith(Trim(r), "*.")
      ==> |NormalizeSuffix(r)| < |Trim(r)|
  {
    TrimStartIsSuffix(r);
    TrimEndIsPrefix(TrimStart(r));
    FoldStarts(Trim(r), ".");
    FoldStarts(Trim(r), "+.");
    FoldStarts(Trim(r), "*.");
    var t := Trim(r);
    assert |t| <= |r| && (|t| == |r| ==> t == r);
    hide Trim, Fold, TrimStart, TrimEnd, IsWhite;
    TrimDotsIsPrefix(DropDot(DropGlob(Fold(t))));
    hide TrimDots;
  }

  /** Normalising a rule once more leaves it alone exactly if it is plain and ends in no white
      space; a key such as "..x" gives a rule that is not. */
  lemma NormalizeAgainIff(key: string)
    ensures var r := NormalizeSuffix(key);
      NormalizeSuffix(r) == r <==> Plain(r) && (r == "" || !IsWhite(r[|r| - 1]))
  {
    var r := NormalizeSuffix(key);
    RuleIsFolded(key);
    NormalizeIsShorter(r);
    TrimIsAll(r);
    hide NormalizeSuffix;
    if Plain(r) && (r == "" || !IsWhite(r[|r| - 1])) {
      PlainStays(r);
    }
  }

  /** What is left of a key after trimming, one glob and one dot. */
  function Body(key: string): string {
    DropDot(DropGlob(Fold(Trim(key))))
  }

  /** White space, and nothing but dots after it. */
  ghost predicate EndsWhite(b: string) {
    exists k :: 0 <= k < |b| && IsWhite(b[k]) && OnlyDots(b[k + 1..])
  }

  /** Nothing left for a second pass to take. A lone sign before the dots is no glob. */
  ghost predicate Settled(b: string) {
    || OnlyDots(b)
    || (!IsWhite(b[0]) && b[0] != '.' && !EndsWhite(b)
        && (OnlyDots(b[1..]) || !(StartsWith(b, "+.") || StartsWith(b, "*."))))
  }

  lemma {:induction false} TrimDotsSplits(b: string)
    ensures |TrimDots(b)| <= |b| && b == TrimDots(b) + b[|TrimDots(b)|..]
    ensures OnlyDots(b[|TrimDots(b)|..])
  {
    if b != "" && b[|b| - 1] == '.' {
      var init := b[..|b| - 1];
      TrimDotsSplits(init);
      TrimDotsIsPrefix(init);
      assert b[|TrimDots(b)|..] == init[|TrimDots(b)|..] + ".";
    } else {
      assert b[|b|..] == "";
    }
  }

  lemma DotsFrom(b: string, k: nat)
    requires k <= |b|
    ensures OnlyDots(b[k..]) <==> forall j :: k <= j < |b| ==> b[j] == '.'
  {
    assert forall j :: k <= j < |b| ==> b[j] == b[k..][j - k];
  }

  lemma LastBeforeDots(b: string)
    requires !OnlyDots(b)
    ensures TrimDots(b) != "" && (EndsWhite(b) <==> IsWhite(TrimDots(b)[|TrimDots(b)| - 1]))
  {
    TrimDotsEmpty(b);
    TrimDotsIsPrefix(b);
    TrimDotsSplits(b);
    var r := TrimDots(b);
    hide TrimDots;
    assert r == b[..|r|] && b[|r| - 1] != '.';
    DotsFrom(b, |r|);
    if IsWhite(r[|r| - 1]) {
      assert OnlyDots(b[|r| - 1 + 1..]);
    }
    if EndsWhite(b) {
      var k :| 0 <= k < |b| && IsWhite(b[k]) && OnlyDots(b[k + 1..]);
      DotsFrom(b, k + 1);
      assert k == |r| - 1;
    }
  }

  lemma SameStart(b: string, r: string)
    requires 2 <= |r| <= |b| && r == b[..|r|]
    ensures StartsWith(b, "+.") <==> StartsWith(r, "+.")
    ensures StartsWith(b, "*.") <==> StartsWith(r, "*.")
  {
    assert b[..2] == r[..2];
  }

  lemma FirstOfRule(r: string)
    requires r != ""
    ensures StartsWith(r, ".") <==> r[0] == '.'
    ensures |r| == 1 ==> !StartsWith(r, "+.") && !StartsWith(r, "*.")
  {
    assert r[..1] == [r[0]];
  }

  lemma PlainByBody(b: string)
    requires !OnlyDots(b)
    ensures Plain(TrimDots(b)) <==>
      !IsWhite(b[0]) && b[0] != '.' && (OnlyDots(b[1..]) || !(StartsWith(b, "+.") || StartsWith(b, "*.")))
  {
    hide TrimDots, StartsWith, IsWhite;
    TrimDotsEmpty(b);
    TrimDotsIsPrefix(b);
    TrimDotsSplits(b);
    var r := TrimDots(b);
    assert r == b[..|r|] && r[0] == b[0];
    FirstOfRule(r);
    DotsFrom(b, 1);
    DotsFrom(b, |r|);
    hide OnlyDots;
    if |r| > 1 {
      assert b[|r| - 1] != '.';
      SameStart(b, r);
    }
  }

  lemma RuleIsTrimmedBody(key: string)
    ensures NormalizeSuffix(key) == TrimDots(Body(key))
  {
    hide TrimDots, DropDot, DropGlob, Fold, Trim;
  }

  /** Whether a key's rule is final can be told from the key: normalising again changes nothing
      exactly if what is left after trimming, one glob and one dot is settled. */
  lemma NormalizeAgainByKeyIff(key: string)
    ensures NormalizeSuffix(NormalizeSuffix(key)) == NormalizeSuffix(key) <==> Settled(Body(key))
  {
    hide NormalizeSuffix, Body, TrimDots, Plain, EndsWhite, OnlyDots, StartsWith, IsWhite;
    var b := Body(key);
    NormalizeAgainIff(key);
    RuleIsTrimmedBody(key);
    TrimDotsEmpty(b);
    if OnlyDots(b) {
      EmptyIsPlain();
    } else {
      LastBeforeDots(b);
      PlainByBody(b);
    }
  }

  lemma EmptyIsPlain()
    ensures Plain("")
  {
  }

  lemma PlainStays(r: string)
    requires Lower(r) && Plain(r) && Trim(r) == r && (r == "" || r[|r| - 1] != '.')
    ensures NormalizeSuffix(r) == r
  {
    hide Trim;
    assert Fold(r) == r;
  }

  lemma NormalizeTwiceDiffers()
    ensures NormalizeSuffix("..x") == ".x" && NormalizeSuffix(".x") == "x"
  {
    DotSpelling(".x");
    DotSpelling("x");
    assert Fold(".x") == ".x" && Fold("x") == "x";
    assert "." + ".x" == "..x" && "." + "x" == ".x";
  }

  /** A key that is only punctuation gives the empty rule, which matches every host. */
  lemma PunctuationMatchesAll(dots: string, host: string)
    requires OnlyDots(dots)
    ensures SuffixMatches(host, NormalizeSuffix(dots)) && SuffixMatches(host, NormalizeSuffix("." + dots))
    ensures SuffixMatches(host, NormalizeSuffix("+." + dots)) && SuffixMatches(host, NormalizeSuffix("*." + dots))
  {
    assert TrimEnd(dots) == dots;
    SpellingsAgreeIff(dots);
    GlobSpelling("+.", dots);
    BareStarts(dots);
    FoldedDots(Bare(dots));
    FoldedDots(DropDot(Bare(dots)));
  }
}
