/** `slugify(input, maxWords = 6)`: lower-cases the input, removes every
    character other than ASCII letters, digits, whitespace and `-`, trims,
    splits on whitespace runs, keeps `slice(0, maxWords)` of the words,
    joins them with `-` and collapses runs of `-` into one. */
module Slug {
  import opened JsText

  const DefaultMaxWords: int := 6

  predicate IsAsciiUpper(c: char) {
    'A' <= c <= 'Z'
  }

  predicate IsAsciiLower(c: char) {
    'a' <= c <= 'z'
  }

  /** `toLowerCase` on one character, for the ASCII letters. */
  function Lower(c: char): (r: char)
    ensures IsAsciiUpper(c) ==> IsAsciiLower(r) && r as int == c as int + 32
    ensures !IsAsciiUpper(c) ==> r == c
  {
    if IsAsciiUpper(c) then (c as int + 32) as char else c
  }

  /** The characters the class `[^a-z0-9\s-]` does not match. */
  predicate Kept(c: char) {
    IsAsciiLower(c) || IsDigit(c) || IsSpace(c) || c == '-'
  }

  /** The characters a slug is made of. */
  predicate SlugChar(c: char) {
    IsAsciiLower(c) || IsDigit(c) || c == '-'
  }

  predicate AllSlugChars(s: string) {
    forall c :: c in s ==> SlugChar(c)
  }

  /** No two consecutive hyphens. */
  predicate SingleHyphens(s: string) {
    forall i :: 0 <= i < |s| - 1 ==> !(s[i] == '-' && s[i + 1] == '-')
  }

  /** `toLowerCase()` followed by `replace(/[^a-z0-9\s-]/g, "")`. */
  function Clean(s: string): (r: string)
    ensures |r| <= |s|
    ensures forall c :: c in r ==> Kept(c)
  {
    if s == [] then []
    else
      var c := Lower(s[0]);
      (if Kept(c) then [c] else []) + Clean(s[1..])
  }

  /** Cleaning works character by character. */
  lemma {:induction false} CleanAppend(a: string, b: string)
    ensures Clean(a + b) == Clean(a) + Clean(b)
  {
    if a == [] {
      assert a + b == b;
    } else {
      assert (a + b)[0] == a[0];
      assert (a + b)[1..] == a[1..] + b;
      CleanAppend(a[1..], b);
    }
  }

  /** A string made only of kept, non-upper-case characters is already clean. */
  lemma {:induction false} CleanOfKept(s: string)
    requires forall c :: c in s ==> Kept(c)
    ensures Clean(s) == s
  {
    if s != [] {
      assert s[0] in s;
      assert forall c :: c in s[1..] ==> c in s;
      CleanOfKept(s[1..]);
      assert s == [s[0]] + s[1..];
    }
  }

  /** `split(/\s+/)`: the pieces between maximal runs of whitespace.  A
      leading or trailing run yields an empty piece, and `""` splits into
      `[""]`. */
  function SplitWs(s: string): (r: seq<string>)
    ensures |r| >= 1
    decreases |s|
  {
    if s == [] then [""]
    else if IsSpace(s[0]) then
      [""] + SplitWs(TrimStart(s))
    else
      var rest := SplitWs(s[1..]);
      [[s[0]] + rest[0]] + rest[1..]
  }

  /** No piece holds whitespace. */
  lemma {:induction false} SplitWsNoSpace(s: string)
    ensures forall i :: 0 <= i < |SplitWs(s)| ==> NoSpace(SplitWs(s)[i])
    decreases |s|
  {
    if s != [] {
      if IsSpace(s[0]) {
        SplitWsNoSpace(TrimStart(s));
      } else {
        SplitWsNoSpace(s[1..]);
        var rest := SplitWs(s[1..]);
        assert NoSpace([s[0]] + rest[0]) by {
          assert NoSpace(rest[0]);
        }
        assert forall i :: 1 <= i < |SplitWs(s)| ==> SplitWs(s)[i] == rest[i];
      }
    }
  }

  predicate AllKept(s: string) {
    forall c :: c in s ==> Kept(c)
  }

  /** The pieces are made of the characters of the string split. */
  lemma {:induction false} SplitWsKept(s: string)
    requires AllKept(s)
    ensures forall i :: 0 <= i < |SplitWs(s)| ==> AllKept(SplitWs(s)[i])
    decreases |s|
  {
    if s != [] {
      if IsSpace(s[0]) {
        var t := TrimStart(s);
        TrimStartSplits(s);
        assert forall c :: c in t ==> c in s;
        SplitWsKept(t);
      } else {
        assert s[0] in s;
        assert forall c :: c in s[1..] ==> c in s;
        SplitWsKept(s[1..]);
      }
    }
  }

  /** A string without whitespace is a single piece. */
  lemma {:induction false} SplitWsOfWord(w: string)
    requires NoSpace(w)
    ensures SplitWs(w) == [w]
  {
    if w != [] {
      SplitWsOfWord(w[1..]);
      assert w == [w[0]] + w[1..];
    }
  }

  /** A single space after a word ends that word. */
  lemma {:induction false} SplitWsAfterWord(w: string, rest: string)
    requires NoSpace(w)
    requires rest == [] || !IsSpace(rest[0])
    ensures SplitWs(w + " " + rest) == [w] + SplitWs(rest)
  {
    var s := w + " " + rest;
    if w == [] {
      assert s == " " + rest;
      assert s[1..] == rest;
      TrimStartOfSpaceFree(rest);
      assert TrimStart(s) == TrimStart(s[1..]);
    } else {
      assert s[0] == w[0];
      assert s[1..] == w[1..] + " " + rest;
      SplitWsAfterWord(w[1..], rest);
      assert w == [w[0]] + w[1..];
    }
  }

  /** The `sep`-joined words: `ws.join(sep)`. */
  function JoinWith(ws: seq<string>, sep: string): (r: string)
    ensures ws == [] ==> r == ""
    ensures |ws| == 1 ==> r == ws[0]
  {
    if ws == [] then ""
    else if |ws| == 1 then ws[0]
    else ws[0] + sep + JoinWith(ws[1..], sep)
  }

  /** Words without whitespace, none empty. */
  predicate PlainWords(ws: seq<string>) {
    forall i :: 0 <= i < |ws| ==> ws[i] != [] && NoSpace(ws[i])
  }

  /** Splitting undoes joining with single spaces. */
  lemma {:induction false} SplitWsOfJoin(ws: seq<string>)
    requires |ws| >= 1 && PlainWords(ws)
    ensures SplitWs(JoinWith(ws, " ")) == ws
  {
    if |ws| == 1 {
      SplitWsOfWord(ws[0]);
    } else {
      var rest := JoinWith(ws[1..], " ");
      assert rest[0] == ws[1][0] by {
        if |ws| == 2 {
        } else {
          assert rest == ws[1] + " " + JoinWith(ws[2..], " ");
        }
      }
      SplitWsAfterWord(ws[0], rest);
      SplitWsOfJoin(ws[1..]);
      assert ws == [ws[0]] + ws[1..];
    }
  }

  /** Appending text can only change the last piece and add pieces after it. */
  lemma {:induction false} SplitWsPrefix(a: string, b: string)
    ensures |SplitWs(a + b)| >= |SplitWs(a)|
    ensures SplitWs(a + b)[..|SplitWs(a)| - 1] == SplitWs(a)[..|SplitWs(a)| - 1]
    decreases |a|
  {
    if a == [] {
      assert a + b == b;
    } else if IsSpace(a[0]) {
      assert (a + b)[0] == a[0];
      if AllSpace(a) {
        TrimStartOfSpace(a);
        assert SplitWs(a) == [""] + SplitWs([]);
      } else {
        TrimStartAppend(a, b);
        SplitWsPrefix(TrimStart(a), b);
        PrefixAfterEmpty(SplitWs(TrimStart(a)), SplitWs(TrimStart(a) + b));
      }
    } else {
      assert (a + b)[0] == a[0];
      assert (a + b)[1..] == a[1..] + b;
      SplitWsPrefix(a[1..], b);
      PrefixAfterGlue(a[0], SplitWs(a[1..]), SplitWs(a[1..] + b));
    }
  }

  lemma PrefixAfterEmpty(w: seq<string>, w': seq<string>)
    requires 1 <= |w| <= |w'| && w'[..|w| - 1] == w[..|w| - 1]
    ensures ([""] + w')[..|w|] == ([""] + w)[..|w|]
  {
    assert ([""] + w')[..|w|] == [""] + w'[..|w| - 1];
    assert ([""] + w)[..|w|] == [""] + w[..|w| - 1];
  }

  lemma PrefixAfterGlue(c: char, w: seq<string>, w': seq<string>)
    requires 1 <= |w| <= |w'| && w'[..|w| - 1] == w[..|w| - 1]
    ensures ([[c] + w'[0]] + w'[1..])[..|w| - 1] == ([[c] + w[0]] + w[1..])[..|w| - 1]
  {
    var n := |w| - 1;
    if n > 0 {
      assert w'[0] == w'[..n][0] == w[..n][0] == w[0];
      assert w'[1..n] == w'[..n][1..] == w[..n][1..] == w[1..n];
      assert ([[c] + w'[0]] + w'[1..])[..n] == [[c] + w'[0]] + w'[1..n];
      assert ([[c] + w[0]] + w[1..])[..n] == [[c] + w[0]] + w[1..n];
    }
  }

  /** `slice(0, n)` on an array, including a negative end counted from the
      back. */
  function Take(ws: seq<string>, n: int): (r: seq<string>)
    ensures |r| <= |ws| && r == ws[..|r|]
    ensures n >= 0 ==> |r| == if n < |ws| then n else |ws|
    ensures n < 0 ==> |r| == if |ws| + n > 0 then |ws| + n else 0
  {
    if n >= 0 then (if n < |ws| then ws[..n] else ws)
    else if |ws| + n > 0 then ws[..|ws| + n]
    else []
  }

  /** `replace(/-+/g, "-")`. */
  function CollapseHyphens(s: string): (r: string)
    ensures SingleHyphens(r)
    ensures forall c :: c in r ==> c in s
    ensures s != [] ==> r != [] && r[0] == s[0]
  {
    if |s| < 2 then s
    else if s[0] == '-' && s[1] == '-' then CollapseHyphens(s[1..])
    else
      var t := CollapseHyphens(s[1..]);
      assert forall c :: c in t ==> c in s;
      [s[0]] + t
  }

  /** The characters other than `-`, in order. */
  function NonHyphens(s: string): (r: string)
    ensures '-' !in r
  {
    if s == [] then [] else (if s[0] == '-' then [] else [s[0]]) + NonHyphens(s[1..])
  }

  /** Collapsing only removes hyphens. */
  lemma {:induction false} CollapseKeepsNonHyphens(s: string)
    ensures NonHyphens(CollapseHyphens(s)) == NonHyphens(s)
  {
    if |s| >= 2 {
      CollapseKeepsNonHyphens(s[1..]);
      if !(s[0] == '-' && s[1] == '-') {
        var r := CollapseHyphens(s);
        assert r[1..] == CollapseHyphens(s[1..]);
      }
    }
  }

  /** A string without a double hyphen is left as it is. */
  lemma {:induction false} CollapseOfSingle(s: string)
    requires SingleHyphens(s)
    ensures CollapseHyphens(s) == s
  {
    if |s| >= 2 {
      assert !(s[0] == '-' && s[1] == '-');
      CollapseOfSingle(s[1..]);
      assert s == [s[0]] + s[1..];
    }
  }

  lemma {:induction false} JoinSlugChars(ws: seq<string>)
    requires forall i :: 0 <= i < |ws| ==> AllSlugChars(ws[i])
    ensures AllSlugChars(JoinWith(ws, "-"))
  {
    if |ws| >= 2 {
      JoinSlugChars(ws[1..]);
    }
  }

  lemma TrimKept(s: string)
    requires AllKept(s)
    ensures AllKept(Trim(s))
  {
    var t := TrimStart(s);
    TrimStartSplits(s);
    TrimEndSplits(t);
    assert forall c :: c in TrimEnd(t) ==> c in t;
    assert forall c :: c in t ==> c in s;
  }

  /** The whitespace-separated words `slugify` starts from. */
  function Words(s: string): (r: seq<string>)
    ensures |r| >= 1
  {
    SplitWs(Trim(Clean(s)))
  }

  lemma WordsSlugChars(s: string)
    ensures forall i :: 0 <= i < |Words(s)| ==> AllSlugChars(Words(s)[i])
  {
    var t := Trim(Clean(s));
    TrimKept(Clean(s));
    SplitWsKept(t);
    SplitWsNoSpace(t);
    var ws := SplitWs(t);
    forall i | 0 <= i < |ws|
      ensures AllSlugChars(ws[i])
    {
      forall c | c in ws[i]
        ensures SlugChar(c)
      {
        var j :| 0 <= j < |ws[i]| && ws[i][j] == c;
      }
    }
  }

  lemma TakeSlugChars(input: string, n: int)
    ensures AllSlugChars(JoinWith(Take(Words(input), n), "-"))
  {
    var ws := Words(input);
    WordsSlugChars(input);
    var words := Take(ws, n);
    assert forall i :: 0 <= i < |words| ==> words[i] == ws[i];
    JoinSlugChars(words);
  }

  /** `slugify(input, maxWords)`. */
  function Slugify(input: string, maxWords: int := DefaultMaxWords): (r: string)
    ensures AllSlugChars(r)
    ensures SingleHyphens(r)
  {
    var words := Take(Words(input), maxWords);
    TakeSlugChars(input, maxWords);
    CollapseHyphens(JoinWith(words, "-"))
  }

  /** An input with no ASCII letter, digit or hyphen gives the empty slug,
      whatever `maxWords` is. */
  lemma NothingKept(input: string, n: int)
    requires forall c :: c in input ==> !IsAsciiUpper(c) && !IsAsciiLower(c) && !IsDigit(c) && c != '-'
    ensures Slugify(input, n) == ""
  {
    var cl := Clean(input);
    assert AllSpace(cl) by {
      forall i | 0 <= i < |cl|
        ensures IsSpace(cl[i])
      {
        assert cl[i] in cl;
        NotKeptChar(input, cl[i]);
      }
    }
    assert Trim(cl) == "";
    assert Words(input) == [""];
    var words := Take([""], n);
    assert words == [] || words == [""];
    assert JoinWith(words, "-") == "";
  }

  lemma {:induction false} NotKeptChar(s: string, c: char)
    requires forall c :: c in s ==> !IsAsciiUpper(c) && !IsAsciiLower(c) && !IsDigit(c) && c != '-'
    requires c in Clean(s)
    ensures IsSpace(c)
  {
    if s != [] {
      if c != Lower(s[0]) || !Kept(Lower(s[0])) {
        assert forall d :: d in s[1..] ==> d in s;
        NotKeptChar(s[1..], c);
      } else {
        assert s[0] in s;
      }
    }
  }

  /** Whitespace at either end never turns into a hyphen. */
  lemma SlugifyPadded(p: string, input: string, q: string, n: int)
    requires AllSpace(p) && AllSpace(q)
    ensures Slugify(p + input + q, n) == Slugify(input, n)
  {
    CleanAppend(p + input, q);
    CleanAppend(p, input);
    CleanOfKept(p);
    CleanOfKept(q);
    TrimPadded(p, Clean(input), q);
  }

  /** Single-spaced lower-case words are hyphen-joined, the first `n` of
      them in their order. */
  lemma SlugifyOfWords(ws: seq<string>, n: nat)
    requires |ws| >= 1 && PlainWords(ws)
    requires forall i :: 0 <= i < |ws| ==> '-' !in ws[i] && AllSlugChars(ws[i])
    ensures Slugify(JoinWith(ws, " "), n) == JoinWith(ws[..if n < |ws| then n else |ws|], "-")
  {
    WordsOfJoin(ws);
    CollapseOfFront(ws, n);
  }

  lemma CollapseOfFront(ws: seq<string>, n: nat)
    requires forall i :: 0 <= i < |ws| ==> ws[i] != [] && '-' !in ws[i]
    ensures CollapseHyphens(JoinWith(Take(ws, n), "-")) == JoinWith(ws[..if n < |ws| then n else |ws|], "-")
  {
    var k := if n < |ws| then n else |ws|;
    var front := ws[..k];
    assert Take(ws, n) == front;
    assert forall i :: 0 <= i < k ==> front[i] == ws[i];
    HyphenJoinSingle(front);
    CollapseOfSingle(JoinWith(front, "-"));
  }

  /** Single-spaced words made of slug characters are their own words. */
  lemma WordsOfJoin(ws: seq<string>)
    requires |ws| >= 1 && PlainWords(ws)
    requires forall i :: 0 <= i < |ws| ==> AllSlugChars(ws[i])
    ensures Words(JoinWith(ws, " ")) == ws
  {
    var s := JoinWith(ws, " ");
    KeptJoin(ws);
    CleanOfKept(s);
    JoinEnds(ws);
    TrimStartOfSpaceFree(s);
    assert TrimEnd(s) == s;
    SplitWsOfJoin(ws);
  }

  lemma {:induction false} KeptJoin(ws: seq<string>)
    requires forall i :: 0 <= i < |ws| ==> AllSlugChars(ws[i])
    ensures forall c :: c in JoinWith(ws, " ") ==> Kept(c)
  {
    if |ws| >= 2 {
      KeptJoin(ws[1..]);
      assert IsSpace(' ');
    }
  }

  lemma {:induction false} JoinEnds(ws: seq<string>)
    requires |ws| >= 1 && PlainWords(ws)
    ensures JoinWith(ws, " ") != []
    ensures JoinWith(ws, " ")[0] == ws[0][0]
    ensures JoinWith(ws, " ")[|JoinWith(ws, " ")| - 1] == ws[|ws| - 1][|ws[|ws| - 1]| - 1]
  {
    if |ws| >= 2 {
      JoinEnds(ws[1..]);
    }
  }

  /** Non-empty words without hyphens, joined with one hyphen, never give
      a double hyphen. */
  lemma {:induction false} HyphenJoinSingle(ws: seq<string>)
    requires forall i :: 0 <= i < |ws| ==> ws[i] != [] && '-' !in ws[i]
    ensures SingleHyphens(JoinWith(ws, "-"))
    ensures |ws| >= 1 ==> JoinWith(ws, "-")[0] == ws[0][0]
  {
    if |ws| >= 2 {
      HyphenJoinSingle(ws[1..]);
      var w, rest := ws[0], JoinWith(ws[1..], "-");
      var s := w + "-" + rest;
      forall i | 0 <= i < |s| - 1
        ensures !(s[i] == '-' && s[i + 1] == '-')
      {
        if i < |w| {
          assert s[i] == w[i];
          assert w[i] in w;
        } else if i == |w| {
          assert s[i + 1] == rest[0] == ws[1][0];
          assert ws[1][0] in ws[1];
        } else {
          assert s[i] == rest[i - |w| - 1] && s[i + 1] == rest[i - |w|];
        }
      }
    }
  }

  /** A slug is its own slug, for every non-negative word cap. */
  lemma SlugifyIdempotent(input: string, n: nat)
    ensures Slugify(Slugify(input, n), n) == Slugify(input, n)
  {
    var r := Slugify(input, n);
    assert forall c :: c in r ==> Kept(c);
    CleanOfKept(r);
    assert NoSpace(r) by {
      forall i | 0 <= i < |r|
        ensures !IsSpace(r[i])
      {
        assert r[i] in r;
      }
    }
    TrimStartOfSpaceFree(r);
    assert TrimEnd(r) == r;
    SplitWsOfWord(r);
    if n > 0 {
      assert Take([r], n) == [r];
      CollapseOfSingle(r);
    } else {
      assert Take(Words(input), n) == [];
    }
  }

  /** `trim` keeps what a non-blank prefix contributes and at most adds to it. */
  lemma TrimAppendPrefix(c: string, d: string)
    requires !AllSpace(c)
    ensures Trim(c) <= Trim(c + d)
  {
    TrimStartAppend(c, d);
    var x := TrimStart(c);
    TrimEndSplits(x);
    assert x + d == TrimStart(c + d);
    if AllSpace(d) {
      TrimEndBeforeSpace(x, d);
    } else {
      TrimEndPrepend(x, d);
    }
  }

  /** Prepending text before a string that has some non-space character does
      not change what `trimEnd` removes. */
  lemma {:induction false} TrimEndPrepend(x: string, d: string)
    requires !AllSpace(d)
    ensures TrimEnd(x + d) == x + TrimEnd(d)
  {
    var n := |d| - 1;
    if IsSpace(d[n]) {
      assert (x + d)[..|x + d| - 1] == x + d[..n];
      assert !AllSpace(d[..n]);
      TrimEndPrepend(x, d[..n]);
    } else {
      assert (x + d)[|x + d| - 1] == d[n];
    }
  }

  /** Once the input has more than `n` words, text appended to it cannot
      reach the slug: only the first `n` words survive. */
  lemma SlugifyExtend(input: string, more: string, n: nat)
    requires |Words(input)| > n
    ensures Slugify(input + more, n) == Slugify(input, n)
  {
    if n > 0 {
      WordsExtend(input, more, n);
    }
  }

  /** The first `n` words are kept when text is appended to an input with
      more than `n` words. */
  lemma WordsExtend(input: string, more: string, n: nat)
    requires 0 < n < |Words(input)|
    ensures Take(Words(input + more), n) == Take(Words(input), n)
  {
    var t, u := Trim(Clean(input)), Trim(Clean(input + more));
    assert t != [];
    CleanTrimAppend(input, more);
    assert u == t + u[|t|..];
    SplitWsTake(t, u[|t|..], n);
  }

  lemma CleanTrimAppend(input: string, more: string)
    requires Trim(Clean(input)) != []
    ensures Trim(Clean(input)) <= Trim(Clean(input + more))
  {
    CleanAppend(input, more);
    TrimAppendPrefix(Clean(input), Clean(more));
  }

  lemma SplitWsTake(t: string, y: string, n: nat)
    requires 0 < n < |SplitWs(t)|
    ensures Take(SplitWs(t + y), n) == Take(SplitWs(t), n)
  {
    SplitWsPrefix(t, y);
    TakeOfCommonPrefix(SplitWs(t), SplitWs(t + y), n);
  }

  /** Two word lists that agree before the last word of the shorter one
      agree on their first `n` words, for `n` short of that word. */
  lemma TakeOfCommonPrefix(w: seq<string>, w': seq<string>, n: nat)
    requires 0 < n < |w| <= |w'| && w'[..|w| - 1] == w[..|w| - 1]
    ensures Take(w', n) == Take(w, n)
  {
    assert w'[..n] == w'[..|w| - 1][..n];
    assert w[..n] == w[..|w| - 1][..n];
  }
}
