/** Deployment slugs: reducing a name to a DNS label, and finding one that no deployment
    claims. Lower-casing is a parameter: the proofs need only that it leaves slug characters
    alone, which holds of every Unicode lower-casing. */
module Slug {
  import opened Common

  /** 63, the longest DNS label, less the length of "octo-int-". */
  const MAX_LEN: nat := 54

  const PREFIX := "octo-int-"

  predicate IsWord(c: char) {
    'a' <= c <= 'z' || '0' <= c <= '9'
  }

  ghost predicate KeepsSlugChars(lower: char -> char) {
    forall c :: IsWord(c) || c == '-' ==> lower(c) == c
  }

  function Lower(lower: char -> char, s: string): string {
    seq(|s|, i requires 0 <= i < |s| => lower(s[i]))
  }

  function TrimLeft(s: string): string {
    if s != "" && s[0] == '-' then TrimLeft(s[1..]) else s
  }

  function TrimRight(s: string): string {
    if s != "" && s[|s| - 1] == '-' then TrimRight(s[..|s| - 1]) else s
  }

  function Trim(s: string): string {
    TrimRight(TrimLeft(s))
  }

  // ---- What a slug is ----------------------------------------------------------------

  /** Length of the run of word characters a text starts with. */
  function RunLength(t: string): (k: nat)
    ensures k <= |t| && (forall i :: 0 <= i < k ==> IsWord(t[i])) && (k < |t| ==> !IsWord(t[k]))
  {
    if t == "" || !IsWord(t[0]) then 0 else 1 + RunLength(t[1..])
  }

  /** The maximal runs of word characters, in order. */
  function Words(t: string): seq<string>
    decreases |t|
  {
    if t == "" then []
    else if !IsWord(t[0]) then Words(t[1..])
    else [t[..RunLength(t)]] + Words(t[RunLength(t)..])
  }

  function Dashed(words: seq<string>): string {
    if words == [] then ""
    else if |words| == 1 then words[0]
    else words[0] + "-" + Dashed(words[1..])
  }

  function Shorten(s: string): string {
    if |s| > MAX_LEN then Trim(s[..MAX_LEN]) else s
  }

  /** The words of a name joined by single dashes, cut to length. */
  function SlugOf(lower: char -> char, name: string): string {
    Shorten(Dashed(Words(Lower(lower, name))))
  }

  /** Slug characters only, no dash at either end, no two dashes in a row. */
  predicate Clean(s: string) {
    && (forall i :: 0 <= i < |s| ==> IsWord(s[i]) || s[i] == '-')
    && (s != "" ==> IsWord(s[0]) && IsWord(s[|s| - 1]))
    && (forall i, j :: 0 <= i < |s| && 0 <= j < |s| && j == i + 1 ==> s[i] != '-' || s[j] != '-')
  }

  predicate Canonical(s: string) {
    Clean(s) && |s| <= MAX_LEN
  }

  // ---- The builder loop --------------------------------------------------------------

  lemma {:induction false} RunOfAppend(t: string, c: char)
    ensures RunLength(t + [c]) == if RunLength(t) < |t| then RunLength(t)
                                  else if IsWord(c) then |t| + 1 else |t|
    decreases |t|
  {
    if t != "" {
      assert (t + [c])[1..] == t[1..] + [c];
      RunOfAppend(t[1..], c);
    } else {
      assert (t + [c])[1..] == "";
    }
  }

  lemma {:induction false} AppendOther(t: string, c: char)
    requires !IsWord(c)
    ensures Words(t + [c]) == Words(t)
    decreases |t|
  {
    if t == "" {
      assert (t + [c])[1..] == "";
    } else if !IsWord(t[0]) {
      assert (t + [c])[1..] == t[1..] + [c];
      AppendOther(t[1..], c);
    } else {
      var k := RunLength(t);
      RunOfAppend(t, c);
      assert (t + [c])[..k] == t[..k] && (t + [c])[k..] == t[k..] + [c];
      AppendOther(t[k..], c);
    }
  }

  predicate EndsInWord(t: string) {
    t != "" && IsWord(t[|t| - 1])
  }

  /** The last word with one more character. */
  function Extended(words: seq<string>, c: char): seq<string>
    requires words != []
  {
    words[..|words| - 1] + [words[|words| - 1] + [c]]
  }

  lemma {:induction false} AppendWord(t: string, c: char)
    requires IsWord(c)
    ensures !EndsInWord(t) ==> Words(t + [c]) == Words(t) + [[c]]
    ensures EndsInWord(t) ==> Words(t) != [] && Words(t + [c]) == Extended(Words(t), c)
    decreases |t|
  {
    if t == "" {
      assert t + [c] == [c] && [c][..1] == [c] && [c][1..] == "";
      RunOfAppend("", c);
    } else if !IsWord(t[0]) {
      AppendWord(t[1..], c);
      AppendAfterOther(t, c);
    } else if RunLength(t) < |t| {
      var k := RunLength(t);
      AppendWord(t[k..], c);
      AppendAfterWord(t[..k], t[k..], c);
      assert t == t[..k] + t[k..];
    } else {
      OneWordLonger(t, c);
    }
  }

  /** A leading character that is no word character is skipped, whatever is appended. */
  lemma AppendAfterOther(t: string, c: char)
    requires t != "" && !IsWord(t[0])
    ensures Words(t) == Words(t[1..]) && Words(t + [c]) == Words(t[1..] + [c])
    ensures EndsInWord(t) <==> EndsInWord(t[1..])
  {
    assert (t + [c])[1..] == t[1..] + [c];
  }

  /** A whole word and what follows it. */
  lemma WordsCons(first: string, rest: string)
    requires first != "" && (forall i :: 0 <= i < |first| ==> IsWord(first[i])) && (rest != "" ==> !IsWord(rest[0]))
    ensures Words(first + rest) == [first] + Words(rest)
  {
    var t := first + rest;
    var k := RunLength(t);
    assert forall i :: 0 <= i < |first| ==> t[i] == first[i];
    assert rest != "" ==> t[|first|] == rest[0];
    assert t[..k] == first && t[k..] == rest;
  }

  /** The first word of a longer text is out of reach of what is appended. */
  lemma AppendAfterWord(first: string, rest: string, c: char)
    requires first != "" && (forall i :: 0 <= i < |first| ==> IsWord(first[i]))
    requires IsWord(c) && rest != "" && !IsWord(rest[0])
    requires !EndsInWord(rest) ==> Words(rest + [c]) == Words(rest) + [[c]]
    requires EndsInWord(rest) ==> Words(rest) != [] && Words(rest + [c]) == Extended(Words(rest), c)
    ensures var t := first + rest;
      && (!EndsInWord(t) ==> Words(t + [c]) == Words(t) + [[c]])
      && (EndsInWord(t) ==> Words(t) != [] && Words(t + [c]) == Extended(Words(t), c))
  {
    var t := first + rest;
    assert t + [c] == first + (rest + [c]) && t[|t| - 1] == rest[|rest| - 1];
    var words, longer := Words(rest), Words(rest + [c]);
    assert Words(t) == [first] + words by { WordsCons(first, rest); }
    assert Words(t + [c]) == [first] + longer by { WordsCons(first, rest + [c]); }
    if EndsInWord(rest) {
      ExtendedCons(first, words, c);
    } else {
      assert [first] + (words + [[c]]) == [first] + words + [[c]];
    }
  }

  lemma OneWordLonger(t: string, c: char)
    requires IsWord(c) && t != "" && forall i :: 0 <= i < |t| ==> IsWord(t[i])
    ensures Words(t) == [t] && Words(t + [c]) == [t + [c]] && EndsInWord(t)
  {
    IsOneWord(t);
    IsOneWord(t + [c]);
  }

  lemma ExtendedCons(w: string, words: seq<string>, c: char)
    requires words != []
    ensures Extended([w] + words, c) == [w] + Extended(words, c)
  {
  }

  lemma {:induction false} DashedAppend(words: seq<string>, w: string)
    ensures Dashed(words + [w]) == if words == [] then w else Dashed(words) + "-" + w
    decreases |words|
  {
    if |words| == 1 {
      assert (words + [w])[1..] == [w];
    } else if |words| > 1 {
      assert (words + [w])[1..] == words[1..] + [w];
      DashedAppend(words[1..], w);
    }
  }

  lemma DashedExtended(words: seq<string>, c: char)
    requires words != []
    ensures Dashed(Extended(words, c)) == Dashed(words) + [c]
  {
    var init, last := words[..|words| - 1], words[|words| - 1];
    assert words == init + [last];
    DashedAppend(init, last);
    DashedAppend(init, last + [c]);
  }

  /** One pass over the characters: word characters are kept, the first other character after one becomes
      a dash, and the result is trimmed and cut. */
  method Slugify(lower: char -> char, name: string) returns (out: string)
    ensures out == SlugOf(lower, name)
  {
    var text := Lower(lower, name);
    var b := "";
    var dash := false;
    for i := 0 to |text|
      invariant b == Dashed(Words(text[..i])) + if dash then "-" else ""
      invariant Words(text[..i]) == [] ==> b == "" && !dash
      invariant Words(text[..i]) != [] ==> Dashed(Words(text[..i])) != "" && (dash <==> !EndsInWord(text[..i]))
    {
      var r := text[i];
      ghost var done := text[..i];
      assert text[..i + 1] == done + [r];
      if IsWord(r) {
        AppendWord(done, r);
        if EndsInWord(done) {
          DashedExtended(Words(done), r);
        } else {
          DashedAppend(Words(done), [r]);
        }
        b := b + [r];
        dash := false;
      } else {
        AppendOther(done, r);
        if |b| > 0 && !dash {
          b := b + "-";
          dash := true;
        }
      }
    }
    assert text[..|text|] == text;
    WordsAreWords(text);
    DashedIsClean(Words(text));
    TrimClean(Dashed(Words(text)), dash);
    out := Trim(b);
    if |out| > MAX_LEN {
      out := Trim(out[..MAX_LEN]);
    }
  }

  // ---- Every slug is a label ---------------------------------------------------------

  predicate AllWords(words: seq<string>) {
    forall i :: 0 <= i < |words| ==> words[i] != "" && forall j :: 0 <= j < |words[i]| ==> IsWord(words[i][j])
  }

  lemma {:induction false} WordsAreWords(t: string)
    ensures AllWords(Words(t))
    decreases |t|
  {
    if t != "" {
      if !IsWord(t[0]) {
        WordsAreWords(t[1..]);
      } else {
        WordsAreWords(t[RunLength(t)..]);
      }
    }
  }

  lemma {:induction false} DashedIsClean(words: seq<string>)
    requires AllWords(words)
    ensures Clean(Dashed(words)) && (words != [] ==> Dashed(words) != "")
    decreases |words|
  {
    if |words| > 1 {
      DashedIsClean(words[1..]);
    }
  }

  /** A clean text, possibly followed by one dash, trims to itself. */
  lemma TrimClean(s: string, dash: bool)
    requires Clean(s) && (dash ==> s != "")
    ensures Trim(s + if dash then "-" else "") == s
  {
    var t := s + if dash then "-" else "";
    assert TrimLeft(t) == t;
    if dash {
      assert t[..|t| - 1] == s && TrimRight(s) == s;
    } else {
      assert t == s;
    }
  }

  lemma CutIsCanonical(s: string)
    requires Clean(s) && |s| > MAX_LEN
    ensures Canonical(Trim(s[..MAX_LEN])) && Trim(s[..MAX_LEN]) != ""
  {
    var t := s[..MAX_LEN];
    assert TrimLeft(t) == t;
    if t[MAX_LEN - 1] == '-' {
      assert t == t[..MAX_LEN - 1] + "-";
      TrimClean(t[..MAX_LEN - 1], true);
    } else {
      assert t + "" == t;
      TrimClean(t, false);
    }
  }

  /** Slugify yields the empty string or a label of at most 54 slug characters. */
  lemma SlugIsCanonical(lower: char -> char, name: string)
    ensures Canonical(SlugOf(lower, name))
  {
    var s := Dashed(Words(Lower(lower, name)));
    WordsAreWords(Lower(lower, name));
    DashedIsClean(Words(Lower(lower, name)));
    if |s| > MAX_LEN {
      CutIsCanonical(s);
    }
  }

  /** With its prefix a slug is a label in the sense of section 2.1 of RFC 1123, within the 63
      characters of section 2.3.4 of RFC 1035. */
  lemma PrefixedSlugIsLabel(s: string)
    requires Canonical(s) && s != ""
    ensures |PREFIX + s| <= 63 && Clean(PREFIX + s)
  {
  }

  /** A clean text is its own words joined by dashes. */
  lemma CleanIsItsWords(s: string)
    requires Clean(s)
    ensures Dashed(Words(s)) == s && (s != "" ==> Words(s) != [])
  {
    var words := CleanHasWords(s);
    WordsOfDashed(words);
  }

  lemma {:induction false} CleanHasWords(s: string) returns (words: seq<string>)
    requires Clean(s)
    ensures AllWords(words) && Dashed(words) == s && (s != "" ==> words != [])
    decreases |s|
  {
    if s == "" {
      words := [];
    } else if forall i :: 0 <= i < |s| ==> IsWord(s[i]) {
      words := [s];
    } else {
      var first, rest := SplitClean(s);
      var tail := CleanHasWords(rest);
      words := [first] + tail;
      assert words[1..] == tail;
    }
  }

  lemma {:induction false} WordsOfDashed(words: seq<string>)
    requires AllWords(words)
    ensures Words(Dashed(words)) == words
    decreases |words|
  {
    if |words| == 1 {
      IsOneWord(words[0]);
    } else if |words| > 1 {
      WordsOfDashed(words[1..]);
      WordsAfterDash(words[0], Dashed(words[1..]));
    }
  }

  /** A word, a dash and more text. */
  lemma WordsAfterDash(first: string, rest: string)
    requires first != "" && forall i :: 0 <= i < |first| ==> IsWord(first[i])
    ensures Words(first + "-" + rest) == [first] + Words(rest)
  {
    assert first + "-" + rest == first + ("-" + rest);
    WordsCons(first, "-" + rest);
    DashSkipped(rest);
  }

  lemma DashSkipped(rest: string)
    ensures Words("-" + rest) == Words(rest)
  {
    assert ("-" + rest)[1..] == rest;
  }

  lemma IsOneWord(s: string)
    requires s != "" && forall i :: 0 <= i < |s| ==> IsWord(s[i])
    ensures Words(s) == [s] && Dashed([s]) == s
  {
    WordsCons(s, "");
    assert s + "" == s;
  }

  /** A clean text of several words is its first one, a dash, and a clean rest. */
  lemma SplitClean(s: string) returns (first: string, rest: string)
    requires Clean(s) && exists i :: 0 <= i < |s| && !IsWord(s[i])
    ensures s == first + ("-" + rest) && Clean(rest) && rest != ""
    ensures first != "" && forall i :: 0 <= i < |first| ==> IsWord(first[i])
  {
    var k := RunLength(s);
    first, rest := s[..k], s[k + 1..];
    DashSplits(s, k);
    assert s[..k] + "-" + s[k + 1..] == first + ("-" + rest);
  }

  lemma DashSplits(s: string, k: nat)
    requires Clean(s) && k < |s| && !IsWord(s[k])
    ensures s == s[..k] + "-" + s[k + 1..] && Clean(s[k + 1..]) && s[k + 1..] != ""
  {
    assert s[k] == '-';
    assert k + 1 < |s| && s[k + 1] != '-';
  }

  lemma CanonicalIsFixed(lower: char -> char, s: string)
    requires KeepsSlugChars(lower) && Canonical(s)
    ensures SlugOf(lower, s) == s
  {
    assert Lower(lower, s) == s;
    CleanIsItsWords(s);
  }

  /** The canonical strings are exactly the ones slugify leaves unchanged. */
  lemma FixedIffCanonical(lower: char -> char, s: string)
    requires KeepsSlugChars(lower)
    ensures SlugOf(lower, s) == s <==> Canonical(s)
  {
    SlugIsCanonical(lower, s);
    if Canonical(s) {
      CanonicalIsFixed(lower, s);
    }
  }

  lemma SlugifyIdempotent(lower: char -> char, name: string)
    requires KeepsSlugChars(lower)
    ensures SlugOf(lower, SlugOf(lower, name)) == SlugOf(lower, name)
  {
    SlugIsCanonical(lower, name);
    CanonicalIsFixed(lower, SlugOf(lower, name));
  }

  // ---- What a slug keeps of the name --------------------------------------------------

  /** The word characters of a text, in order. */
  function WordChars(s: string): string {
    if s == "" then "" else (if IsWord(s[0]) then [s[0]] else "") + WordChars(s[1..])
  }

  /** The same of a name, each character lower-cased. */
  function NameChars(lower: char -> char, name: string): string {
    if name == "" then ""
    else (if IsWord(lower(name[0])) then [lower(name[0])] else "") + NameChars(lower, name[1..])
  }

  lemma {:induction false} NameCharsAreLower(lower: char -> char, name: string)
    ensures WordChars(Lower(lower, name)) == NameChars(lower, name)
  {
    if name != "" {
      assert Lower(lower, name)[1..] == Lower(lower, name[1..]);
      NameCharsAreLower(lower, name[1..]);
    }
  }

  lemma {:induction false} WordCharsAppend(a: string, b: string)
    ensures WordChars(a + b) == WordChars(a) + WordChars(b)
    decreases |a|
  {
    if a == "" {
      assert a + b == b;
    } else {
      assert (a + b)[1..] == a[1..] + b;
      WordCharsAppend(a[1..], b);
    }
  }

  lemma {:induction false} WordCharsOfWord(w: string)
    requires forall i :: 0 <= i < |w| ==> IsWord(w[i])
    ensures WordChars(w) == w
  {
    if w != "" {
      WordCharsOfWord(w[1..]);
    }
  }

  /** Cutting a text into words and joining them with dashes loses no word character. */
  lemma {:induction false} DashedKeepsChars(t: string)
    ensures WordChars(Dashed(Words(t))) == WordChars(t)
    decreases |t|
  {
    if t != "" {
      if !IsWord(t[0]) {
        DashedKeepsChars(t[1..]);
      } else {
        var k := RunLength(t);
        var first, rest := t[..k], Words(t[k..]);
        DashedKeepsChars(t[k..]);
        assert t == first + t[k..];
        WordCharsAppend(first, t[k..]);
        WordCharsOfWord(first);
        DashedCons(first, rest);
      }
    }
  }

  lemma DashedCons(first: string, rest: seq<string>)
    requires forall i :: 0 <= i < |first| ==> IsWord(first[i])
    ensures WordChars(Dashed([first] + rest)) == first + WordChars(Dashed(rest))
  {
    WordCharsOfWord(first);
    if rest == [] {
      assert Dashed([first] + rest) == first;
    } else {
      assert ([first] + rest)[1..] == rest;
      assert Dashed([first] + rest) == first + ("-" + Dashed(rest));
      WordCharsAppend(first, "-" + Dashed(rest));
      assert ("-" + Dashed(rest))[1..] == Dashed(rest);
    }
  }

  lemma CutKeepsPrefix(s: string)
    requires Clean(s) && |s| > MAX_LEN
    ensures Trim(s[..MAX_LEN]) <= s && MAX_LEN - 1 <= |Trim(s[..MAX_LEN])| <= MAX_LEN
  {
    var t := s[..MAX_LEN];
    assert TrimLeft(t) == t;
    if t[MAX_LEN - 1] == '-' {
      assert t == t[..MAX_LEN - 1] + "-";
      TrimClean(t[..MAX_LEN - 1], true);
    } else {
      assert t + "" == t;
      TrimClean(t, false);
    }
  }

  /** A slug is made of the name's own letters and digits, lower-cased, in order, from the first on;
      of all of them unless the slug had to be cut, and then it has its full length, less a dash. */
  lemma SlugKeepsName(lower: char -> char, name: string)
    ensures WordChars(SlugOf(lower, name)) <= NameChars(lower, name)
    ensures |SlugOf(lower, name)| < MAX_LEN - 1 ==> WordChars(SlugOf(lower, name)) == NameChars(lower, name)
  {
    var t := Lower(lower, name);
    var s := Dashed(Words(t));
    NameCharsAreLower(lower, name);
    DashedKeepsChars(t);
    if |s| > MAX_LEN {
      WordsAreWords(t);
      DashedIsClean(Words(t));
      CutKeepsPrefix(s);
      var slug := Trim(s[..MAX_LEN]);
      assert s == slug + s[|slug|..];
      WordCharsAppend(slug, s[|slug|..]);
    }
  }

  /** A character that is not kept separates words, and nothing else does. */
  lemma {:induction false} WordsApart(u: string, c: char, v: string)
    requires !IsWord(c)
    ensures Words(u + [c] + v) == Words(u) + Words(v)
    decreases |u|
  {
    var t := u + [c] + v;
    if u == "" {
      assert t[1..] == v;
    } else if !IsWord(u[0]) {
      assert t[1..] == u[1..] + [c] + v;
      WordsApart(u[1..], c, v);
    } else {
      var k := RunLength(u);
      WordsApart(u[k..], c, v);
      WordsApartCons(u[..k], u[k..], c, v);
      assert u == u[..k] + u[k..];
    }
  }

  lemma WordsApartCons(first: string, rest: string, c: char, v: string)
    requires first != "" && (forall i :: 0 <= i < |first| ==> IsWord(first[i])) && (rest != "" ==> !IsWord(rest[0]))
    requires !IsWord(c) && Words(rest + [c] + v) == Words(rest) + Words(v)
    ensures Words(first + rest + [c] + v) == Words(first + rest) + Words(v)
  {
    assert first + rest + [c] + v == first + (rest + [c] + v);
    WordsCons(first, rest + [c] + v);
    WordsCons(first, rest);
  }

  lemma {:induction false} DashedConcat(a: seq<string>, b: seq<string>)
    ensures Dashed(a + b) == if a == [] then Dashed(b) else if b == [] then Dashed(a) else Dashed(a) + "-" + Dashed(b)
    decreases |a|
  {
    if a == [] {
      assert a + b == b;
    } else if b == [] {
      assert a + b == a;
    } else {
      assert (a + b)[1..] == a[1..] + b;
      DashedConcat(a[1..], b);
    }
  }

  /** Where the dashes go: a character that is not kept puts exactly one dash between what stands
      on either side of it, and none at an end. */
  lemma SlugOfTwoParts(lower: char -> char, u: string, c: char, v: string)
    requires !IsWord(lower(c))
    requires |SlugOf(lower, u)| + 1 + |SlugOf(lower, v)| < MAX_LEN - 1
    ensures var a, b := SlugOf(lower, u), SlugOf(lower, v);
      SlugOf(lower, u + [c] + v) == if a == "" then b else if b == "" then a else a + "-" + b
  {
    var a, b := Lower(lower, u), Lower(lower, v);
    assert Lower(lower, u + [c] + v) == a + [lower(c)] + b;
    WordsApart(a, lower(c), b);
    DashedConcat(Words(a), Words(b));
    ShortIsUncut(lower, u);
    ShortIsUncut(lower, v);
  }

  lemma ShortIsUncut(lower: char -> char, name: string)
    requires |SlugOf(lower, name)| < MAX_LEN - 1
    ensures SlugOf(lower, name) == Dashed(Words(Lower(lower, name)))
    ensures SlugOf(lower, name) == "" <==> Words(Lower(lower, name)) == []
  {
    var t := Lower(lower, name);
    WordsAreWords(t);
    DashedIsClean(Words(t));
    if |Dashed(Words(t))| > MAX_LEN {
      CutKeepsPrefix(Dashed(Words(t)));
    }
  }

  /** Letters and digits side by side stay together. */
  lemma SlugOfOneWord(lower: char -> char, w: string)
    requires |w| <= MAX_LEN && forall i :: 0 <= i < |w| ==> IsWord(lower(w[i]))
    ensures |SlugOf(lower, w)| == |w| && forall i :: 0 <= i < |w| ==> SlugOf(lower, w)[i] == lower(w[i])
  {
    var t := Lower(lower, w);
    if w != "" {
      IsOneWord(t);
    }
  }

  // ---- Allocation --------------------------------------------------------------------

  function Digit(n: nat): char
    requires n < 10
  {
    '0' + n as char
  }

  function Suffix(i: nat): string
    requires i <= 999
  {
    ['-', Digit(i / 100), Digit(i / 10 % 10), Digit(i % 10)]
  }

  /** The i-th slug tried for a base: the base itself, then the base with a three-digit suffix. */
  function Candidate(base: string, i: nat): string
    requires i <= 999
  {
    if i == 0 then base
    else if |base| + 4 > MAX_LEN then Trim(base[..MAX_LEN - 4]) + Suffix(i)
    else base + Suffix(i)
  }

  function Base(base: string): string {
    if base == "" then "integration" else Shorten(base)
  }

  lemma BaseIsCanonical(base: string)
    requires Clean(base)
    ensures Canonical(Base(base)) && Base(base) != ""
  {
    if |base| > MAX_LEN {
      CutIsCanonical(base);
    }
  }

  lemma SuffixedIsCanonical(s: string, i: nat)
    requires Clean(s) && s != "" && |s| <= MAX_LEN - 4 && i <= 999
    ensures Canonical(s + Suffix(i))
  {
    DigitIsWord(i / 100);
    DigitIsWord(i / 10 % 10);
    DigitIsWord(i % 10);
  }

  lemma DigitIsWord(n: nat)
    requires n < 10
    ensures IsWord(Digit(n))
  {
  }

  lemma CandidateIsCanonical(base: string, i: nat)
    requires Canonical(base) && base != "" && i <= 999
    ensures Canonical(Candidate(base, i)) && Candidate(base, i) != ""
  {
    if i > 0 {
      if |base| + 4 > MAX_LEN {
        var t := base[..MAX_LEN - 4];
        assert TrimLeft(t) == t;
        if t[|t| - 1] == '-' {
          assert t == t[..|t| - 1] + "-";
          TrimClean(t[..|t| - 1], true);
        } else {
          assert t + "" == t;
          TrimClean(t, false);
        }
        SuffixedIsCanonical(Trim(t), i);
      } else {
        SuffixedIsCanonical(base, i);
      }
    }
  }

  /** The number three digits spell. */
  function Spelled(s: string): int
    requires |s| == 3
  {
    100 * (s[0] as int - '0' as int) + 10 * (s[1] as int - '0' as int) + (s[2] as int - '0' as int)
  }

  /** The candidates tried: the base, then what fits of it with a dash and the number in three
      digits. */
  lemma CandidateShape(base: string, i: nat)
    requires Canonical(base) && base != "" && i <= 999
    ensures i == 0 ==> Candidate(base, i) == base
    ensures i > 0 ==>
              var c := Candidate(base, i);
              var n := |c| - 4;
              && n >= 1 && c[n] == '-' && Spelled(c[n + 1..]) == i && c[..n] <= base
              && (if |base| + 4 <= MAX_LEN then c[..n] == base else |c| >= MAX_LEN - 1)
  {
    if i > 0 {
      var c := Candidate(base, i);
      var n := |c| - 4;
      var kept := if |base| + 4 > MAX_LEN then Trim(base[..MAX_LEN - 4]) else base;
      if |base| + 4 > MAX_LEN {
        KeptOfBase(base);
      }
      assert c == kept + Suffix(i) && c[..n] == kept && c[n + 1..] == Suffix(i)[1..];
      ThreeDigits(i);
    }
  }

  lemma KeptOfBase(base: string)
    requires Canonical(base) && |base| > MAX_LEN - 4
    ensures var kept := Trim(base[..MAX_LEN - 4]); kept <= base && |kept| >= MAX_LEN - 5
  {
    var t := base[..MAX_LEN - 4];
    assert TrimLeft(t) == t;
    if t[|t| - 1] == '-' {
      assert t == t[..|t| - 1] + "-";
      TrimClean(t[..|t| - 1], true);
    } else {
      assert t + "" == t;
      TrimClean(t, false);
    }
  }

  lemma SuffixesDiffer(i: nat, j: nat)
    requires i < j <= 999
    ensures Suffix(i) != Suffix(j)
  {
    ThreeDigits(i);
    ThreeDigits(j);
    assert Suffix(i)[1] == Digit(i / 100) && Suffix(j)[1] == Digit(j / 100);
    assert Suffix(i)[2] == Digit(i / 10 % 10) && Suffix(j)[2] == Digit(j / 10 % 10);
    assert Suffix(i)[3] == Digit(i % 10) && Suffix(j)[3] == Digit(j % 10);
    DigitsTell(i / 100, j / 100);
    DigitsTell(i / 10 % 10, j / 10 % 10);
    DigitsTell(i % 10, j % 10);
  }

  lemma ThreeDigits(i: nat)
    requires i <= 999
    ensures i == 100 * (i / 100) + 10 * (i / 10 % 10) + i % 10
  {
    assert i / 10 / 10 == i / 100;
  }

  lemma DigitsTell(m: nat, n: nat)
    requires m < 10 && n < 10
    ensures Digit(m) == Digit(n) <==> m == n
  {
  }

  /** The last three characters of a suffixed candidate spell its index. */
  lemma CandidatesDiffer(base: string, i: nat, j: nat)
    requires 1 <= i < j <= 999
    ensures Candidate(base, i) != Candidate(base, j)
  {
    var a, b := Candidate(base, i), Candidate(base, j);
    assert a[|a| - 4..] == Suffix(i) && b[|b| - 4..] == Suffix(j);
    SuffixesDiffer(i, j);
  }

  ghost function Candidates(base: string, n: nat): set<string>
    requires n <= 999
  {
    if n == 0 then {} else Candidates(base, n - 1) + {Candidate(base, n)}
  }

  lemma {:induction false} CandidatesCount(base: string, n: nat)
    requires n <= 999
    ensures |Candidates(base, n)| == n
    ensures forall j :: n < j <= 999 ==> Candidate(base, j) !in Candidates(base, n)
  {
    if n > 0 {
      CandidatesCount(base, n - 1);
      forall j | n < j <= 999 ensures Candidate(base, j) !in Candidates(base, n) {
        CandidatesDiffer(base, n, j);
      }
    }
  }

  lemma {:induction false} CandidatesClaimed(base: string, n: nat, claimed: set<string>)
    requires n <= 999 && forall i :: 1 <= i <= n ==> Candidate(base, i) in claimed
    ensures Candidates(base, n) <= claimed
  {
    if n > 0 {
      CandidatesClaimed(base, n - 1, claimed);
    }
  }

  lemma ManyClaimed(base: string, claimed: set<string>)
    requires forall i :: 0 <= i <= 999 ==> Candidate(base, i) in claimed
    ensures |claimed| >= 999
  {
    CandidatesCount(base, 999);
    CandidatesClaimed(base, 999, claimed);
    SubsetSize(Candidates(base, 999), claimed);
  }

  /** The first `n` candidates were all looked up and all are claimed. */
  ghost predicate AllTaken(base: string, n: nat, claimed: set<string>, fails: nat -> bool)
    requires n <= 1000
  {
    forall j :: 0 <= j < n ==> Candidate(base, j) in claimed && !fails(j)
  }

  /** The first candidate from the i-th on that is not claimed; None when a lookup on the way
      fails or no candidate is left. */
  function FirstFree(base: string, i: nat, claimed: set<string>, fails: nat -> bool): Option<string>
    decreases 1000 - i
  {
    if i > 999 || fails(i) then None
    else if Candidate(base, i) !in claimed then Some(Candidate(base, i))
    else FirstFree(base, i + 1, claimed, fails)
  }

  /** The slug a networked deployment gets, if it gets one. */
  function SlugChoice(lower: char -> char, chosen: string, name: string, claimed: set<string>, fails: nat -> bool):
    Option<string>
  {
    var slug := SlugOf(lower, chosen);
    if chosen == "" then FirstFree(Base(SlugOf(lower, name)), 0, claimed, fails)
    else if slug == "" || fails(0) || slug in claimed then None
    else Some(slug)
  }

  datatype Allocation = Allocated(slug: string) | Exhausted | LookupFailed | Invalid | Taken

  method BuildCandidate(base: string, i: nat) returns (candidate: string)
    requires i <= 999
    ensures candidate == Candidate(base, i)
  {
    candidate := base;
    if i > 0 {
      var suffix := Suffix(i);
      var trimmed := base;
      if |trimmed| + |suffix| > MAX_LEN {
        trimmed := Trim(trimmed[..MAX_LEN - |suffix|]);
      }
      candidate := trimmed + suffix;
    }
  }

  /** The first candidate that no deployment claims. `fails` says which lookups the database
      does not answer. The search ends at the `at`-th candidate, all before it looked up and
      claimed: there is a free one, the lookup fails, or there is no candidate left, which means
      at least 999 different slugs are claimed. */
  method AllocateSlug(name: string, claimed: set<string>, fails: nat -> bool) returns (r: Allocation, ghost at: nat)
    requires Clean(name)
    ensures at <= 1000 && AllTaken(Base(name), at, claimed, fails)
    ensures match r
            case Allocated(slug) => at <= 999 && slug == Candidate(Base(name), at) && slug !in claimed && !fails(at)
            case LookupFailed => at <= 999 && fails(at)
            case Exhausted => at == 1000 && |claimed| >= 999
            case _ => false
    ensures r.Allocated? ==> Canonical(r.slug) && r.slug != ""
    ensures FirstFree(Base(name), 0, claimed, fails) == if r.Allocated? then Some(r.slug) else None
  {
    var base := if name == "" then "integration" else name;
    if |base| > MAX_LEN {
      base := Trim(base[..MAX_LEN]);
    }
    assert base == Base(name);
    BaseIsCanonical(name);
    for i := 0 to 1000
      invariant AllTaken(base, i, claimed, fails)
      invariant FirstFree(base, 0, claimed, fails) == FirstFree(base, i, claimed, fails)
    {
      var candidate := BuildCandidate(base, i);
      if fails(i) {
        return LookupFailed, i;
      }
      if candidate !in claimed {
        CandidateIsCanonical(base, i);
        return Allocated(candidate), i;
      }
    }
    ManyClaimed(base, claimed);
    return Exhausted, 1000;
  }

  /** The slug for a networked deployment: the caller's choice if it is usable and free, or an
      allocated one. */
  method ResolveSlug(lower: char -> char, chosen: string, name: string, claimed: set<string>, fails: nat -> bool)
    returns (r: Allocation)
    ensures r.Allocated? ==> Canonical(r.slug) && r.slug != "" && r.slug !in claimed
    ensures r.Allocated? && chosen != "" ==> r.slug == SlugOf(lower, chosen)
    ensures r.Invalid? <==> chosen != "" && SlugOf(lower, chosen) == ""
    ensures r.Taken? <==> chosen != "" && SlugOf(lower, chosen) != "" && !fails(0) && SlugOf(lower, chosen) in claimed
    ensures r.LookupFailed? ==> exists i :: 0 <= i <= 999 && fails(i)
    ensures r.Exhausted? ==> chosen == "" && |claimed| >= 999
    ensures SlugChoice(lower, chosen, name, claimed, fails) == if r.Allocated? then Some(r.slug) else None
  {
    if chosen == "" {
      var base := Slugify(lower, name);
      SlugIsCanonical(lower, name);
      ghost var at: nat;
      r, at := AllocateSlug(base, claimed, fails);
      return;
    }
    var slug := Slugify(lower, chosen);
    if slug == "" {
      return Invalid;
    }
    if fails(0) {
      return LookupFailed;
    }
    if slug in claimed {
      return Taken;
    }
    SlugIsCanonical(lower, chosen);
    return Allocated(slug);
  }
}
