/** The keyword extraction of analysis/sentiment_analysis.py
    (`extract_top_keywords`): tokens of Hangul syllables, ASCII letters and
    digits, counted in first-seen order unless excluded or all digits, and
    the most frequent ones returned. */
module SentimentKeywords {
  import opened Common
  import opened SentimentText
  import opened Counting

  // ----- tokens -----

  /** `[가-힣a-zA-Z0-9]`. */
  predicate IsTokenChar(c: char)
  {
    'a' <= c <= 'z' || 'A' <= c <= 'Z' || '0' <= c <= '9' || 0xAC00 <= c as int <= 0xD7A3
  }

  /** The length of the run of token characters `s` starts with. */
  function TokenRun(s: string): (n: nat)
    ensures n <= |s|
    ensures forall i :: 0 <= i < n ==> IsTokenChar(s[i])
    ensures n < |s| ==> !IsTokenChar(s[n])
  {
    if s == [] || !IsTokenChar(s[0]) then 0 else 1 + TokenRun(s[1..])
  }

  /** `findall` of `[가-힣a-zA-Z0-9]{2,}`: the maximal runs of token
      characters of length at least 2, left to right. */
  function Tokens(s: string): seq<string>
    decreases |s|
  {
    if s == [] then []
    else if !IsTokenChar(s[0]) then Tokens(s[1..])
    else
      var n := TokenRun(s);
      (if n >= 2 then [s[..n]] else []) + Tokens(s[n..])
  }

  /** At least two characters, all of them token characters. */
  predicate IsToken(t: string)
  {
    |t| >= 2 && forall i :: 0 <= i < |t| ==> IsTokenChar(t[i])
  }

  lemma {:induction false} TokensShape(s: string)
    ensures forall k :: 0 <= k < |Tokens(s)| ==> IsToken(Tokens(s)[k])
    decreases |s|
  {
    if s != [] {
      if !IsTokenChar(s[0]) {
        TokensShape(s[1..]);
      } else {
        var n := TokenRun(s);
        TokensShape(s[n..]);
        var head: seq<string> := if n >= 2 then [s[..n]] else [];
        assert forall k :: 0 <= k < |head| ==> IsToken(head[k]);
      }
    }
  }

  /** A string with no token character has no token. */
  lemma {:induction false} NoTokenChars(s: string)
    requires forall i :: 0 <= i < |s| ==> !IsTokenChar(s[i])
    ensures Tokens(s) == []
    decreases |s|
  {
    if s != [] {
      NoTokenChars(s[1..]);
    }
  }

  // ----- filtering and counting -----

  /** `t.isdigit()` for a token: every character is a digit. */
  predicate AllDigits(t: string)
  {
    forall i :: 0 <= i < |t| ==> IsDigit(t[i])
  }

  /** A token is counted unless it or its lower-case form is excluded, or
      it is all digits. */
  predicate Kept(t: string, exclude: set<string>)
  {
    !(ToLower(t) in exclude || t in exclude) && !AllDigits(t)
  }


  /** The counter after one token: its lower-case form bumped when kept. */
  function CountToken(c: Counter, t: string, exclude: set<string>): Counter
  {
    if Kept(t, exclude) then Bump(c, ToLower(t)) else c
  }

  /** The counter after a sequence of tokens. */
  function CountTokens(c: Counter, ts: seq<string>, exclude: set<string>): Counter
  {
    if ts == [] then c else CountToken(CountTokens(c, ts[..|ts| - 1], exclude), ts[|ts| - 1], exclude)
  }

  /** The tokens of one feed text; a missing, non-string or empty text
      contributes none. */
  function TextTokens(text: Option<string>): seq<string>
  {
    if text.None? || text.value == "" then [] else Tokens(PreprocessText(text.value))
  }

  /** The counter after all texts. */
  function Tally(texts: seq<Option<string>>, exclude: set<string>): Counter
  {
    if texts == [] then []
    else CountTokens(Tally(texts[..|texts| - 1], exclude), TextTokens(texts[|texts| - 1]), exclude)
  }

  /** A word the counter may hold: a lower-case token, not excluded, not
      all digits. */
  predicate Keyword(w: string, exclude: set<string>)
  {
    IsToken(w) && ToLower(w) == w && w !in exclude && !AllDigits(w)
  }

  predicate WellCounted(c: Counter, exclude: set<string>)
  {
    DistinctWords(c) && PositiveCounts(c) && forall i :: 0 <= i < |c| ==> Keyword(c[i].0, exclude)
  }

  lemma LowerTwice(t: string)
    ensures ToLower(ToLower(t)) == ToLower(t)
    ensures IsToken(t) ==> IsToken(ToLower(t))
    ensures AllDigits(ToLower(t)) <==> AllDigits(t)
  {
    var l := ToLower(t);
    assert forall i :: 0 <= i < |t| ==> l[i] == LowerChar(t[i]);
  }

  lemma CountTokenKeeps(c: Counter, t: string, exclude: set<string>)
    requires WellCounted(c, exclude) && IsToken(t)
    ensures WellCounted(CountToken(c, t, exclude), exclude)
  {
    if Kept(t, exclude) {
      LowerTwice(t);
      BumpKeeps(c, ToLower(t));
    }
  }

  lemma {:induction false} CountTokensKeeps(c: Counter, ts: seq<string>, exclude: set<string>)
    requires WellCounted(c, exclude)
    requires forall k :: 0 <= k < |ts| ==> IsToken(ts[k])
    ensures WellCounted(CountTokens(c, ts, exclude), exclude)
  {
    if ts != [] {
      CountTokensKeeps(c, ts[..|ts| - 1], exclude);
      CountTokenKeeps(CountTokens(c, ts[..|ts| - 1], exclude), ts[|ts| - 1], exclude);
    }
  }

  /** The counter holds distinct keywords with positive counts. */
  lemma {:induction false} TallyWellCounted(texts: seq<Option<string>>, exclude: set<string>)
    ensures WellCounted(Tally(texts, exclude), exclude)
  {
    if texts != [] {
      TallyWellCounted(texts[..|texts| - 1], exclude);
      var text := texts[|texts| - 1];
      if text.Some? && text.value != "" {
        TokensShape(PreprocessText(text.value));
      }
      CountTokensKeeps(Tally(texts[..|texts| - 1], exclude), TextTokens(text), exclude);
    }
  }

  /** The number of kept tokens. */
  function KeptCount(ts: seq<string>, exclude: set<string>): nat
  {
    if ts == [] then 0 else KeptCount(ts[..|ts| - 1], exclude) + (if Kept(ts[|ts| - 1], exclude) then 1 else 0)
  }

  /** Every kept token counts once: the counts add up to the number of
      kept tokens. */
  lemma {:induction false} CountTokensTotal(c: Counter, ts: seq<string>, exclude: set<string>)
    ensures CountTotal(CountTokens(c, ts, exclude)) == CountTotal(c) + KeptCount(ts, exclude)
  {
    if ts != [] {
      CountTokensTotal(c, ts[..|ts| - 1], exclude);
      var t := ts[|ts| - 1];
      if Kept(t, exclude) {
        BumpTotal(CountTokens(c, ts[..|ts| - 1], exclude), ToLower(t));
      }
    }
  }

  /** The lower-case forms of the kept tokens, in order. */
  function KeptLower(ts: seq<string>, exclude: set<string>): seq<string>
  {
    if ts == [] then []
    else KeptLower(ts[..|ts| - 1], exclude) + (if Kept(ts[|ts| - 1], exclude) then [ToLower(ts[|ts| - 1])] else [])
  }

  /** The words the texts feed the counter: the lower-case forms of their
      kept tokens, text by text. */
  function KeptWords(texts: seq<Option<string>>, exclude: set<string>): seq<string>
  {
    if texts == [] then []
    else KeptWords(texts[..|texts| - 1], exclude) + KeptLower(TextTokens(texts[|texts| - 1]), exclude)
  }

  lemma {:induction false} CountTokensAll(ws: seq<string>, ts: seq<string>, exclude: set<string>)
    ensures CountTokens(CountAll(ws), ts, exclude) == CountAll(ws + KeptLower(ts, exclude))
  {
    if ts == [] {
      assert ws + [] == ws;
    } else {
      var init := ts[..|ts| - 1];
      var t := ts[|ts| - 1];
      CountTokensAll(ws, init, exclude);
      var k := KeptLower(init, exclude);
      var u := ws + k;
      assert CountTokens(CountAll(ws), ts, exclude) == CountToken(CountAll(u), t, exclude);
      assert KeptLower(ts, exclude) == k + (if Kept(t, exclude) then [ToLower(t)] else []);
      if Kept(t, exclude) {
        assert ws + (k + [ToLower(t)]) == u + [ToLower(t)];
        CountAllSnoc(u, ToLower(t));
      } else {
        assert k + [] == k;
      }
    }
  }

  /** The tally is the counter of the kept words. */
  lemma {:induction false} TallyIsCountAll(texts: seq<Option<string>>, exclude: set<string>)
    ensures Tally(texts, exclude) == CountAll(KeptWords(texts, exclude))
  {
    if texts != [] {
      var init := texts[..|texts| - 1];
      TallyIsCountAll(init, exclude);
      CountTokensAll(KeptWords(init, exclude), TextTokens(texts[|texts| - 1]), exclude);
    }
  }

  /** Each word's count is the number of kept tokens whose lower-case form
      it is, and the words are in the order of their first occurrence. */
  lemma TallyCounts(texts: seq<Option<string>>, exclude: set<string>)
    ensures var ws := KeptWords(texts, exclude);
      forall w :: CountOf(Tally(texts, exclude), w) == Occurrences(ws, w)
    ensures InOrderOf(Tally(texts, exclude), KeptWords(texts, exclude))
    ensures var ws := KeptWords(texts, exclude); var c := Tally(texts, exclude);
      forall i :: 0 <= i < |c| ==> c[i].0 in ws
  {
    TallyIsCountAll(texts, exclude);
    CountAllFacts(KeptWords(texts, exclude));
    CountAllOrder(KeptWords(texts, exclude));
  }

  // ----- ranking -----

  /** Non-increasing counts. */
  predicate SortedByCount(s: Counter)
  {
    forall i, j :: 0 <= i < j < |s| ==> s[i].1 >= s[j].1
  }

  /** Puts `x` after every entry whose count is at least its own. */
  function Insert(s: Counter, x: (string, nat)): Counter
  {
    if s == [] then [x]
    else if s[|s| - 1].1 >= x.1 then s + [x]
    else Insert(s[..|s| - 1], x) + [s[|s| - 1]]
  }

  /** Inserting keeps a lower bound every entry and `x` respect. */
  lemma {:induction false} InsertBound(s: Counter, x: (string, nat), b: nat)
    requires forall i :: 0 <= i < |s| ==> s[i].1 >= b
    requires x.1 >= b
    ensures |Insert(s, x)| == |s| + 1
    ensures forall i :: 0 <= i < |Insert(s, x)| ==> Insert(s, x)[i].1 >= b
  {
    if s != [] && s[|s| - 1].1 < x.1 {
      InsertBound(s[..|s| - 1], x, b);
    }
  }

  lemma {:induction false} InsertSorted(s: Counter, x: (string, nat))
    requires SortedByCount(s)
    ensures SortedByCount(Insert(s, x))
  {
    if s != [] && s[|s| - 1].1 < x.1 {
      var p := s[..|s| - 1];
      var last := s[|s| - 1];
      InsertSorted(p, x);
      InsertBound(p, x, last.1);
    }
  }

  lemma {:induction false} InsertPerm(s: Counter, x: (string, nat))
    ensures multiset(Insert(s, x)) == multiset(s) + multiset{x}
  {
    if s != [] && s[|s| - 1].1 < x.1 {
      InsertPerm(s[..|s| - 1], x);
      assert s == s[..|s| - 1] + [s[|s| - 1]];
    }
  }

  /** The stable sort by count, largest first, that `most_common` uses. */
  function SortByCount(c: Counter): Counter
  {
    if c == [] then [] else Insert(SortByCount(c[..|c| - 1]), c[|c| - 1])
  }

  lemma {:induction false} SortByCountFacts(c: Counter)
    ensures SortedByCount(SortByCount(c))
    ensures multiset(SortByCount(c)) == multiset(c)
    ensures |SortByCount(c)| == |c|
  {
    if c != [] {
      SortByCountFacts(c[..|c| - 1]);
      InsertSorted(SortByCount(c[..|c| - 1]), c[|c| - 1]);
      InsertPerm(SortByCount(c[..|c| - 1]), c[|c| - 1]);
      InsertBound(SortByCount(c[..|c| - 1]), c[|c| - 1], 0);
      assert c == c[..|c| - 1] + [c[|c| - 1]];
    }
  }

  /** The position at which `Insert` places `x`. */
  function InsertAt(s: Counter, x: (string, nat)): (k: nat)
    ensures k <= |s|
  {
    if s == [] || s[|s| - 1].1 >= x.1 then |s| else InsertAt(s[..|s| - 1], x)
  }

  /** Inserting puts `x` in front of a tail of entries with smaller
      counts. */
  lemma {:induction false} InsertSplit(s: Counter, x: (string, nat))
    ensures var k := InsertAt(s, x);
      Insert(s, x) == s[..k] + [x] + s[k..] && forall i :: k <= i < |s| ==> s[i].1 < x.1
  {
    if s == [] {
      assert Insert(s, x) == s[..0] + [x] + s[0..];
    } else if s[|s| - 1].1 >= x.1 {
      assert Insert(s, x) == s[..|s|] + [x] + s[|s|..];
    } else {
      var p := s[..|s| - 1];
      var last := s[|s| - 1];
      InsertSplit(p, x);
      var k := InsertAt(p, x);
      assert InsertAt(s, x) == k;
      assert s == p + [last];
      assert s[..k] == p[..k];
      assert s[k..] == p[k..] + [last] by {
        assert |s[k..]| == |p[k..]| + 1;
        forall i | 0 <= i < |s[k..]|
          ensures s[k..][i] == (p[k..] + [last])[i]
        {
          assert s[k..][i] == s[k + i];
        }
      }
      calc {
        Insert(s, x);
        Insert(p, x) + [last];
        p[..k] + [x] + p[k..] + [last];
        s[..k] + [x] + s[k..];
      }
    }
  }

  /** Entries listed in increasing order of the first position of their
      words in `ws`. */
  predicate InOrderOf(c: Counter, ws: seq<string>)
  {
    forall i, j :: 0 <= i < j < |c| ==> FirstIndex(ws, c[i].0) < FirstIndex(ws, c[j].0)
  }

  /** Entries with equal counts keep, in the sort, the order they had. */
  predicate TiesInOrderOf(s: Counter, ws: seq<string>)
  {
    forall i, j :: 0 <= i < j < |s| && s[i].1 == s[j].1 ==> FirstIndex(ws, s[i].0) < FirstIndex(ws, s[j].0)
  }

  /** Putting an entry whose word comes after every other entry's in
      front of a tail of smaller counts keeps ties in order. */
  lemma SplitStable(s0: Counter, x: (string, nat), ws: seq<string>, k: nat)
    requires k <= |s0| && TiesInOrderOf(s0, ws)
    requires forall i :: 0 <= i < |s0| ==> FirstIndex(ws, s0[i].0) < FirstIndex(ws, x.0)
    requires forall i :: k <= i < |s0| ==> s0[i].1 < x.1
    ensures TiesInOrderOf(s0[..k] + [x] + s0[k..], ws)
  {
    var s := s0[..k] + [x] + s0[k..];
    assert forall i :: 0 <= i < k ==> s[i] == s0[i];
    assert forall i :: k < i < |s| ==> s[i] == s0[i - 1];
    forall i, j | 0 <= i < j < |s| && s[i].1 == s[j].1
      ensures FirstIndex(ws, s[i].0) < FirstIndex(ws, s[j].0)
    {
      if j == k {
        assert s[i] == s0[i];
      } else if i == k {
        assert false;
      } else {
        var i0 := if i < k then i else i - 1;
        var j0 := if j < k then j else j - 1;
        assert s[i] == s0[i0] && s[j] == s0[j0] && i0 < j0;
      }
    }
  }

  /** Inserting an entry whose word comes after every other entry's keeps
      ties in order. */
  lemma InsertStable(s0: Counter, x: (string, nat), ws: seq<string>)
    requires TiesInOrderOf(s0, ws)
    requires forall i :: 0 <= i < |s0| ==> FirstIndex(ws, s0[i].0) < FirstIndex(ws, x.0)
    ensures TiesInOrderOf(Insert(s0, x), ws)
  {
    InsertSplit(s0, x);
    SplitStable(s0, x, ws, InsertAt(s0, x));
  }

  /** The sort is stable: for a counter in the order of `ws`, entries with
      equal counts are still in that order. */
  lemma {:induction false} SortByCountStable(c: Counter, ws: seq<string>)
    requires InOrderOf(c, ws)
    ensures TiesInOrderOf(SortByCount(c), ws)
  {
    if c != [] {
      var init := c[..|c| - 1];
      var x := c[|c| - 1];
      assert forall i :: 0 <= i < |init| ==> init[i] == c[i];
      SortByCountStable(init, ws);
      SortByCountFacts(init);
      var s0 := SortByCount(init);
      forall i | 0 <= i < |s0|
        ensures FirstIndex(ws, s0[i].0) < FirstIndex(ws, x.0)
      {
        assert s0[i] in multiset(init);
        var idx :| 0 <= idx < |init| && init[idx] == s0[i];
      }
      InsertStable(s0, x, ws);
    }
  }

  /** The counter's own positions: a counter of distinct words lists them
      in its own order. */
  lemma OwnOrder(c: Counter)
    requires DistinctWords(c)
    ensures InOrderOf(c, Keys(c))
  {
    var ws := Keys(c);
    forall i | 0 <= i < |c|
      ensures FirstIndex(ws, c[i].0) == i
    {
      var f := FirstIndex(ws, c[i].0);
      assert ws[i] == c[i].0;
    }
  }

  /** Ties keep their place in the counter. */
  lemma SortByCountKeepsTies(c: Counter)
    requires DistinctWords(c)
    ensures TiesInOrderOf(SortByCount(c), Keys(c))
  {
    OwnOrder(c);
    SortByCountStable(c, Keys(c));
  }

  /** `most_common(n)`: the first `n` entries of the sort; none for
      `n <= 0`. */
  function MostCommon(c: Counter, n: int): (r: Counter)
    ensures |r| <= |c|
    ensures n <= 0 ==> r == []
    ensures n >= 0 ==> |r| == if n <= |c| then n else |c|
  {
    var s := SortByCount(c);
    SortByCountFacts(c);
    if n <= 0 then [] else if n <= |s| then s[..n] else s
  }

  /** The chosen entries are in order of count and come from the
      counter. */
  lemma MostCommonSorted(c: Counter, n: int)
    ensures SortedByCount(MostCommon(c, n))
    ensures forall i :: 0 <= i < |MostCommon(c, n)| ==> MostCommon(c, n)[i] in c
  {
    var s := SortByCount(c);
    SortByCountFacts(c);
    var r := MostCommon(c, n);
    assert r == s[..|r|];
    forall i | 0 <= i < |r|
      ensures r[i] in c
    {
      assert r[i] in multiset(s);
    }
  }

  /** No entry left out has a larger count than any chosen one. */
  lemma MostCommonRanks(c: Counter, n: int)
    ensures forall p, j :: p in c && p !in MostCommon(c, n) && 0 <= j < |MostCommon(c, n)| ==>
      MostCommon(c, n)[j].1 >= p.1
  {
    var s := SortByCount(c);
    SortByCountFacts(c);
    var r := MostCommon(c, n);
    assert r == s[..|r|];
    forall p, j | p in c && p !in r && 0 <= j < |r|
      ensures r[j].1 >= p.1
    {
      assert p in multiset(s);
      var k :| 0 <= k < |s| && s[k] == p;
    }
  }

  /** The chosen entries keep ties in order, and an entry left out with
      the count of a chosen one comes after it: ties go to the entries
      listed first. */
  lemma MostCommonStable(c: Counter, n: int, ws: seq<string>)
    requires InOrderOf(c, ws)
    ensures TiesInOrderOf(MostCommon(c, n), ws)
    ensures forall p, j ::
      (p in c && p !in MostCommon(c, n) && 0 <= j < |MostCommon(c, n)| && MostCommon(c, n)[j].1 == p.1) ==>
      FirstIndex(ws, MostCommon(c, n)[j].0) < FirstIndex(ws, p.0)
  {
    var s := SortByCount(c);
    SortByCountFacts(c);
    SortByCountStable(c, ws);
    var m := MostCommon(c, n);
    assert m == s[..|m|];
    PrefixTies(s, ws, |m|);
    forall p, j | p in c && p !in m && 0 <= j < |m| && m[j].1 == p.1
      ensures FirstIndex(ws, m[j].0) < FirstIndex(ws, p.0)
    {
      assert p in multiset(s);
      var k :| 0 <= k < |s| && s[k] == p;
      assert forall i :: 0 <= i < |m| ==> m[i] == s[i] && m[i] != p;
      assert s[j] == m[j];
    }
  }

  /** A prefix of a list that keeps ties in order keeps them too, and on a
      tie an entry of the prefix comes before one after it. */
  lemma PrefixTies(s: Counter, ws: seq<string>, l: nat)
    requires l <= |s| && TiesInOrderOf(s, ws)
    ensures TiesInOrderOf(s[..l], ws)
    ensures forall j, k :: 0 <= j < l <= k < |s| && s[j].1 == s[k].1 ==> FirstIndex(ws, s[j].0) < FirstIndex(ws, s[k].0)
  {
    assert forall i :: 0 <= i < l ==> s[..l][i] == s[i];
  }

  // ----- extract_top_keywords -----

  /** `STOPWORDS`. */
  function StopWords(): set<string>
  {
    {"은", "는", "이", "가", "을", "를", "의", "에", "와", "과", "도", "만", "에서", "으로", "로", "한",
     "하다", "있다", "되다",
     "그", "저", "그것", "이것", "저것", "나", "너", "우리", "우린", "너네", "너희", "나도", "너도",
     "너나", "자꾸", "그냥", "진짜", "정말", "너무", "완전", "좀", "뭐야", "뭐지", "그럼", "이제", "다시",
     "항상", "맨날", "무엇", "어떤", "어디", "언제", "왜",
     "how", "the", "a", "an", "is", "are", "was", "were", "to", "of", "in", "on", "for", "and", "or", "but"}
  }

  function WordSet(words: seq<string>): set<string>
  {
    set w | w in words
  }

  /** The stop words and every word of the emotion dictionary. */
  function ExcludeSet(stop: set<string>, d: EmotionDict): set<string>
  {
    stop + WordSet(d.positive) + WordSet(d.negative) + WordSet(d.veryNegative) + WordSet(d.swear)
  }

  /** What `extract_top_keywords` returns for an exclusion set. */
  function TopKeywords(texts: seq<Option<string>>, topN: int, exclude: set<string>): seq<string>
  {
    if texts == [] then [] else Keys(MostCommon(Tally(texts, exclude), topN))
  }

  /** `extract_top_keywords`: the counting loops over texts and tokens,
      then the most frequent words. */
  method ExtractTopKeywords(d: EmotionDict, texts: seq<Option<string>>, topN: int) returns (r: seq<string>)
    ensures r == TopKeywords(texts, topN, ExcludeSet(StopWords(), d))
  {
    if |texts| == 0 {
      return [];
    }
    var exclude := ExcludeSet(StopWords(), d);
    var counter: Counter := [];
    for i := 0 to |texts|
      invariant counter == Tally(texts[..i], exclude)
    {
      assert texts[..i + 1][..i] == texts[..i];
      counter := CountText(counter, TextTokens(texts[i]), exclude);
    }
    assert texts[..|texts|] == texts;
    r := Keys(MostCommon(counter, topN));
  }

  /** The inner loop over one text's tokens. */
  method CountText(c: Counter, tokens: seq<string>, exclude: set<string>) returns (counter: Counter)
    ensures counter == CountTokens(c, tokens, exclude)
  {
    counter := c;
    for j := 0 to |tokens|
      invariant counter == CountTokens(c, tokens[..j], exclude)
    {
      assert tokens[..j + 1][..j] == tokens[..j];
      var t := tokens[j];
      if ToLower(t) in exclude || t in exclude {
        continue;
      }
      if AllDigits(t) {
        continue;
      }
      counter := Bump(counter, ToLower(t));
    }
    assert tokens[..|tokens|] == tokens;
  }

  /** The keywords: none for no texts or `topN <= 0`, at most `topN`,
      distinct, each a lower-case token of two or more characters that is
      neither excluded nor all digits. */
  lemma TopKeywordsFacts(texts: seq<Option<string>>, topN: int, exclude: set<string>)
    ensures var r := TopKeywords(texts, topN, exclude);
      (texts == [] || topN <= 0 ==> r == []) &&
      |r| <= (if topN <= 0 then 0 else topN) &&
      (forall i, j :: 0 <= i < j < |r| ==> r[i] != r[j]) &&
      (forall i :: 0 <= i < |r| ==> Keyword(r[i], exclude))
  {
    if texts != [] {
      TallyWellCounted(texts, exclude);
      MostCommonWords(Tally(texts, exclude), topN, exclude);
    }
  }

  /** Each keyword is among the kept words, and the keywords come in order
      of how often they occur there. */
  lemma TopKeywordsOrder(texts: seq<Option<string>>, topN: int, exclude: set<string>)
    ensures var r := TopKeywords(texts, topN, exclude); var ws := KeptWords(texts, exclude);
      (forall i :: 0 <= i < |r| ==> r[i] in ws) &&
      (forall i, j :: 0 <= i < j < |r| ==> Occurrences(ws, r[i]) >= Occurrences(ws, r[j]))
  {
    if texts != [] {
      var c := Tally(texts, exclude);
      var ws := KeptWords(texts, exclude);
      var m := MostCommon(c, topN);
      TallyWellCounted(texts, exclude);
      TallyCounts(texts, exclude);
      MostCommonWords(c, topN, exclude);
      MostCommonSorted(c, topN);
      MostCommonCounts(c, topN);
      forall i | 0 <= i < |m|
        ensures Keys(m)[i] in ws
      {
        OccursIn(ws, Keys(m)[i]);
      }
    }
  }

  /** Keywords occurring equally often are in the order of their first
      occurrence. */
  lemma TopKeywordsTies(texts: seq<Option<string>>, topN: int, exclude: set<string>)
    ensures var r := TopKeywords(texts, topN, exclude); var ws := KeptWords(texts, exclude);
      forall i, j :: 0 <= i < j < |r| && Occurrences(ws, r[i]) == Occurrences(ws, r[j]) ==>
        FirstIndex(ws, r[i]) < FirstIndex(ws, r[j])
  {
    if texts != [] {
      var c := Tally(texts, exclude);
      var ws := KeptWords(texts, exclude);
      TallyWellCounted(texts, exclude);
      TallyCounts(texts, exclude);
      MostCommonWordTies(c, topN, ws);
      var r := TopKeywords(texts, topN, exclude);
      assert r == Keys(MostCommon(c, topN));
      forall i, j | 0 <= i < j < |r| && Occurrences(ws, r[i]) == Occurrences(ws, r[j])
        ensures FirstIndex(ws, r[i]) < FirstIndex(ws, r[j])
      {
        assert CountOf(c, r[i]) == Occurrences(ws, r[i]) && CountOf(c, r[j]) == Occurrences(ws, r[j]);
      }
    }
  }

  /** No kept word left out occurs more often than a chosen one, and one
      that occurs as often first occurs after it. */
  lemma TopKeywordsLeftOut(texts: seq<Option<string>>, topN: int, exclude: set<string>)
    ensures var r := TopKeywords(texts, topN, exclude); var ws := KeptWords(texts, exclude);
      forall w, j :: w in ws && w !in r && 0 <= j < |r| ==>
        Occurrences(ws, r[j]) >= Occurrences(ws, w) &&
        (Occurrences(ws, r[j]) == Occurrences(ws, w) ==> FirstIndex(ws, r[j]) < FirstIndex(ws, w))
  {
    if texts != [] {
      var c := Tally(texts, exclude);
      var ws := KeptWords(texts, exclude);
      TallyWellCounted(texts, exclude);
      TallyCounts(texts, exclude);
      MostCommonLeftOut(c, topN, ws);
      var r := TopKeywords(texts, topN, exclude);
      assert r == Keys(MostCommon(c, topN));
      forall w, j | w in ws && w !in r && 0 <= j < |r|
        ensures Occurrences(ws, r[j]) >= Occurrences(ws, w) &&
          (Occurrences(ws, r[j]) == Occurrences(ws, w) ==> FirstIndex(ws, r[j]) < FirstIndex(ws, w))
      {
        OccursIn(ws, w);
        CountPositive(c, w);
        assert HasEntry(c, w);
        assert CountOf(c, r[j]) == Occurrences(ws, r[j]) && CountOf(c, w) == Occurrences(ws, w);
      }
    }
  }

  /** The words of the most common entries of a counter of distinct
      keywords: at most `n`, distinct, keywords, in order of count. */
  lemma MostCommonWords(c: Counter, n: int, exclude: set<string>)
    requires WellCounted(c, exclude)
    ensures var r := Keys(MostCommon(c, n));
      |r| <= (if n <= 0 then 0 else n) &&
      (forall i, j :: 0 <= i < j < |r| ==> r[i] != r[j]) &&
      (forall i :: 0 <= i < |r| ==> Keyword(r[i], exclude)) &&
      (forall i, j :: 0 <= i < j < |r| ==> CountOf(c, r[i]) >= CountOf(c, r[j]))
  {
    var m := MostCommon(c, n);
    var r := Keys(m);
    MostCommonSorted(c, n);
    forall i | 0 <= i < |m|
      ensures CountOf(c, r[i]) == m[i].1 && Keyword(r[i], exclude)
    {
      var k :| 0 <= k < |c| && c[k] == m[i];
      CountAt(c, k);
    }
    forall i, j | 0 <= i < j < |m|
      ensures r[i] != r[j]
    {
      var ki :| 0 <= ki < |c| && c[ki] == m[i];
      var kj :| 0 <= kj < |c| && c[kj] == m[j];
      if ki == kj {
        MostCommonDistinct(c, n, i, j);
      }
    }
  }

  /** The count of each chosen word is the count of its entry. */
  lemma MostCommonCounts(c: Counter, n: int)
    requires DistinctWords(c)
    ensures forall i :: 0 <= i < |MostCommon(c, n)| ==>
      CountOf(c, Keys(MostCommon(c, n))[i]) == MostCommon(c, n)[i].1
  {
    var m := MostCommon(c, n);
    MostCommonSorted(c, n);
    forall i | 0 <= i < |m|
      ensures CountOf(c, Keys(m)[i]) == m[i].1
    {
      var k :| 0 <= k < |c| && c[k] == m[i];
      CountAt(c, k);
    }
  }

  /** Chosen words with equal counts are in the order of `ws`. */
  lemma MostCommonWordTies(c: Counter, n: int, ws: seq<string>)
    requires DistinctWords(c) && InOrderOf(c, ws)
    ensures var r := Keys(MostCommon(c, n));
      forall i, j :: 0 <= i < j < |r| && CountOf(c, r[i]) == CountOf(c, r[j]) ==>
        FirstIndex(ws, r[i]) < FirstIndex(ws, r[j])
  {
    MostCommonCounts(c, n);
    MostCommonStable(c, n, ws);
  }

  /** A counted word left out has at most the count of each chosen one,
      and comes after it in `ws` when the counts are equal. */
  lemma MostCommonLeftOut(c: Counter, n: int, ws: seq<string>)
    requires DistinctWords(c) && InOrderOf(c, ws)
    ensures var r := Keys(MostCommon(c, n));
      forall w, j :: HasEntry(c, w) && w !in r && 0 <= j < |r| ==>
        CountOf(c, r[j]) >= CountOf(c, w) &&
        (CountOf(c, r[j]) == CountOf(c, w) ==> FirstIndex(ws, r[j]) < FirstIndex(ws, w))
  {
    var m := MostCommon(c, n);
    var r := Keys(m);
    MostCommonCounts(c, n);
    forall w, j | HasEntry(c, w) && w !in r && 0 <= j < |r|
      ensures CountOf(c, r[j]) >= CountOf(c, w) &&
        (CountOf(c, r[j]) == CountOf(c, w) ==> FirstIndex(ws, r[j]) < FirstIndex(ws, w))
    {
      var k :| 0 <= k < |c| && c[k].0 == w;
      CountAt(c, k);
      LeftOutEntry(c, n, k, j, ws);
    }
  }

  /** The entry of a word left out ranks below each chosen entry. */
  lemma LeftOutEntry(c: Counter, n: int, k: nat, j: nat, ws: seq<string>)
    requires InOrderOf(c, ws)
    requires k < |c| && j < |MostCommon(c, n)| && c[k].0 !in Keys(MostCommon(c, n))
    ensures MostCommon(c, n)[j].1 >= c[k].1
    ensures MostCommon(c, n)[j].1 == c[k].1 ==> FirstIndex(ws, MostCommon(c, n)[j].0) < FirstIndex(ws, c[k].0)
  {
    var m := MostCommon(c, n);
    var r := Keys(m);
    forall i | 0 <= i < |m|
      ensures m[i] != c[k]
    {
      assert r[i] != c[k].0;
    }
    assert c[k] in c && c[k] !in m;
    MostCommonRanks(c, n);
    MostCommonStable(c, n, ws);
  }

  /** The chosen entries are distinct positions of the sort, so the same
      stored entry is never chosen twice. */
  lemma MostCommonDistinct(c: Counter, n: int, i: nat, j: nat)
    requires DistinctWords(c)
    requires i < j < |MostCommon(c, n)|
    ensures MostCommon(c, n)[i] != MostCommon(c, n)[j]
  {
    var s := SortByCount(c);
    SortByCountFacts(c);
    var m := MostCommon(c, n);
    assert m[i] == s[i] && m[j] == s[j];
    if s[i] == s[j] {
      TwiceCounted(s, i, j);
      DistinctOnce(c, s[i]);
    }
  }

  /** An element at two positions occurs at least twice. */
  lemma TwiceCounted<T>(s: seq<T>, i: nat, j: nat)
    requires i < j < |s| && s[i] == s[j]
    ensures multiset(s)[s[i]] >= 2
  {
    var a, b := s[..j], s[j..];
    assert s == a + b;
    assert a[i] == s[i] && b[0] == s[j];
    assert multiset(s) == multiset(a) + multiset(b);
  }
}
