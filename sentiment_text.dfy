/** Text preparation of the rule-based sentiment analyser
    (analysis/sentiment_analysis.py): lower-casing, whitespace collapsing
    and stripping, and the emotion-dictionary look-ups. */
module SentimentText {
  import opened Common

  /** Python's whitespace (`str.isspace`, which `\s` and `strip()` use on
      text): the ASCII separators and the Unicode space characters. */
  predicate IsSpace(c: char)
  {
    var n := c as int;
    n == 32 || 9 <= n <= 13 || 0x1c <= n <= 0x1f || n == 0x85 || n == 0xa0 ||
    n == 0x1680 || 0x2000 <= n <= 0x200a || n == 0x2028 || n == 0x2029 ||
    n == 0x202f || n == 0x205f || n == 0x3000
  }

  /** The length of the whitespace run `s` starts with. */
  function SpaceRun(s: string): (n: nat)
    ensures n <= |s|
    ensures forall i :: 0 <= i < n ==> IsSpace(s[i])
    ensures n < |s| ==> !IsSpace(s[n])
  {
    if s == [] || !IsSpace(s[0]) then 0 else 1 + SpaceRun(s[1..])
  }

  /** `re.sub(r'\s+', ' ', s)`: every whitespace run becomes one space. */
  function Collapse(s: string): string
    decreases |s|
  {
    if s == [] then []
    else if IsSpace(s[0]) then [' '] + Collapse(s[SpaceRun(s)..])
    else [s[0]] + Collapse(s[1..])
  }

  /** The characters that are not whitespace, in order. */
  function NonSpace(s: string): string
  {
    if s == [] then [] else (if IsSpace(s[0]) then [] else [s[0]]) + NonSpace(s[1..])
  }

  lemma {:induction false} NonSpaceAppend(a: string, b: string)
    ensures NonSpace(a + b) == NonSpace(a) + NonSpace(b)
  {
    if a == [] {
      assert a + b == b;
    } else {
      assert (a + b)[0] == a[0];
      assert (a + b)[1..] == a[1..] + b;
      NonSpaceAppend(a[1..], b);
      var h: string := if IsSpace(a[0]) then [] else [a[0]];
      assert NonSpace(a + b) == h + NonSpace(a[1..] + b);
      assert NonSpace(a) == h + NonSpace(a[1..]);
    }
  }

  lemma {:induction false} NonSpaceOfSpaces(s: string, n: nat)
    requires n <= |s| && forall i :: 0 <= i < n ==> IsSpace(s[i])
    ensures NonSpace(s) == NonSpace(s[n..])
  {
    if n > 0 {
      NonSpaceOfSpaces(s[1..], n - 1);
      assert s[1..][n - 1..] == s[n..];
    }
  }

  /** A collapsed text keeps every other character in order, its only
      whitespace is the plain space, and no two spaces are adjacent; a
      text not starting with whitespace keeps its first character. */
  lemma {:induction false} CollapseShape(s: string)
    ensures NonSpace(Collapse(s)) == NonSpace(s)
    ensures forall i :: 0 <= i < |Collapse(s)| && IsSpace(Collapse(s)[i]) ==> Collapse(s)[i] == ' '
    ensures forall i :: 0 <= i < |Collapse(s)| - 1 ==> !(Collapse(s)[i] == ' ' && Collapse(s)[i + 1] == ' ')
    ensures |s| > 0 ==> |Collapse(s)| > 0 && (IsSpace(s[0]) <==> IsSpace(Collapse(s)[0]))
    ensures |s| > 0 && !IsSpace(s[0]) ==> Collapse(s)[0] == s[0]
    decreases |s|
  {
    if s != [] {
      if IsSpace(s[0]) {
        var n := SpaceRun(s);
        var rest := s[n..];
        CollapseShape(rest);
        NonSpaceAppend([' '], Collapse(rest));
        NonSpaceOfSpaces(s, n);
      } else {
        CollapseShape(s[1..]);
        NonSpaceAppend([s[0]], Collapse(s[1..]));
        assert s == [s[0]] + s[1..];
        NonSpaceAppend([s[0]], s[1..]);
      }
    }
  }

  /** Whitespace removed from the end. */
  function TrimEnd(s: string): (r: string)
    ensures |r| <= |s| && r == s[..|r|]
    ensures |r| > 0 ==> !IsSpace(r[|r| - 1])
    ensures forall i :: |r| <= i < |s| ==> IsSpace(s[i])
  {
    if s == [] || !IsSpace(s[|s| - 1]) then s else TrimEnd(s[..|s| - 1])
  }

  /** `s.strip()`. */
  function Strip(s: string): (r: string)
    ensures |r| > 0 ==> !IsSpace(r[0]) && !IsSpace(r[|r| - 1])
  {
    var t := s[SpaceRun(s)..];
    var r := TrimEnd(t);
    assert |r| > 0 ==> r[0] == t[0];
    r
  }

  /** Stripping removes whitespace only. */
  lemma StripNonSpace(s: string)
    ensures NonSpace(Strip(s)) == NonSpace(s)
  {
    var n := SpaceRun(s);
    var t := s[n..];
    NonSpaceOfSpaces(s, n);
    var r := TrimEnd(t);
    assert t == r + t[|r|..];
    NonSpaceAppend(r, t[|r|..]);
    NonSpaceOfSpaces(t[|r|..], |t| - |r|);
    assert t[|r|..][|t| - |r|..] == [];
  }

  /** `preprocess_text`: lower-case, collapse whitespace runs, strip. */
  function PreprocessText(text: string): string
  {
    Strip(Collapse(ToLower(text)))
  }

  lemma LowerSpace(c: char)
    ensures IsSpace(LowerChar(c)) <==> IsSpace(c)
    ensures IsSpace(c) ==> LowerChar(c) == c
  {
  }

  /** Whitespace only as single plain spaces. */
  predicate Tidy(s: string)
  {
    (forall i :: 0 <= i < |s| && IsSpace(s[i]) ==> s[i] == ' ') &&
    (forall i :: 0 <= i < |s| - 1 ==> !(s[i] == ' ' && s[i + 1] == ' '))
  }

  lemma TidySlice(s: string, a: nat, b: nat)
    requires Tidy(s) && a <= b <= |s|
    ensures Tidy(s[a..b])
  {
    var t := s[a..b];
    assert forall i :: 0 <= i < |t| ==> t[i] == s[a + i];
  }

  /** Stripping takes a slice. */
  lemma StripIsSlice(s: string) returns (a: nat, b: nat)
    ensures a <= b <= |s| && Strip(s) == s[a..b]
  {
    var n := SpaceRun(s);
    var r := TrimEnd(s[n..]);
    assert s[n..][..|r|] == s[n..n + |r|];
    a, b := n, n + |r|;
  }

  /** The prepared text is the lower-cased text with whitespace runs
      reduced: no whitespace at either end, none but single plain spaces
      inside, and every other character kept in order. */
  lemma PreprocessShape(text: string)
    ensures var r := PreprocessText(text);
      (|r| > 0 ==> !IsSpace(r[0]) && !IsSpace(r[|r| - 1])) &&
      Tidy(r) &&
      NonSpace(r) == NonSpace(ToLower(text))
  {
    var l := ToLower(text);
    var c := Collapse(l);
    CollapseShape(l);
    assert Tidy(c);
    StripNonSpace(c);
    var a, b := StripIsSlice(c);
    TidySlice(c, a, b);
    assert PreprocessText(text) == Strip(c);
  }

  // ----- the emotion dictionary -----

  /** `any(em in text for em in words)`. */
  function AnyContained(text: string, words: seq<string>): (r: bool)
    ensures r <==> exists i :: 0 <= i < |words| && Contains(text, words[i])
  {
    if words == [] then false
    else if Contains(text, words[0]) then true
    else
      var r := AnyContained(text, words[1..]);
      assert forall i :: 1 <= i < |words| ==> words[i] == words[1..][i - 1];
      r
  }

  function PositiveWords(): seq<string>
  {
    ["감사", "담는다", "업", "회복", "불장", "매수", "👍🏻", "호재", "와", "쏜다", "쏴라",
     "가즈아", "가보자", "가자", "간다", "떡상", "대박", "로켓", "화성", "고고",
     "한강뷰", "투더문", "다행", "굿", "좋다", "오"]
  }

  function NegativeWords(): seq<string>
  {
    ["ㅠ", "ㅜ", "ㅡ", "ㅗ", "하..", "하...", "흐..", "흑..", "헐..", "에휴",
     "허걱", "헉", "흑흑", "하아", "하..", "않다", "없다", "아니다", "한강",
     "떨어진다", "폭락", "손실", "손절", "빚", "하락", "하한가", "존버", "존버중",
     "탈출", "리스크", "위험", "불안", "걱정", "답이없", "망했", "털렸", "조정",
     "하락장", "약세장", "살려줘", "심란", "회의적", "곡소리", "빚투", "손실",
     "살려줘", "손해", "잡주", "망했다", "폭망", "대폭락", "공포", "스트레스",
     "떨어지면", "럴", "패닉셀", "개무섭네", "조진", "고점신호", "죽쑤고", "설거지", "음", "흠"]
  }

  function VeryNegativeWords(): seq<string>
  {
    ["으아", "살려", "하..", "하...", "흑..", "헐..", "에휴", "한강가자",
     "한강물", "어휴", "상폐", "삭제", "ㅡㅡ", "숨김", "안돼", "안돼요", "안돼"]
  }

  function SwearWords(): seq<string>
  {
    ["ㅅㅂ", "ㅂㅅ", "ㅈㄹ", "ㅁㅊ", "ㅅㄲ", "ㅈㄴ", "ㅗㅗ",
     "개ㅅㄲ", "개ㅂㅅ", "개ㅈㄹ", "개ㅅㅂ", "개ㅁㅊ", "련",
     "지ㄹ", "닥ㅊ", "ㅅㄲ들", "ㅂㅅ들", "ㅈㄹ하네",
     "미ㅊ", "빡치", "개새", "십", "시ㅂ", "병ㅅ"]
  }

  /** The four dictionary lists of `EMOTION_DICT`. */
  datatype EmotionDict = EmotionDict(positive: seq<string>, negative: seq<string>,
                                     veryNegative: seq<string>, swear: seq<string>)

  function Dictionary(): EmotionDict
  {
    EmotionDict(PositiveWords(), NegativeWords(), VeryNegativeWords(), SwearWords())
  }

  datatype EmotionFeatures = EmotionFeatures(positive: bool, negative: bool, veryNegative: bool, swear: bool)

  /** `extract_emotion_features` for a dictionary: which lists have a word
      occurring in the prepared text. */
  function EmotionFeaturesOf(d: EmotionDict, text: string): (r: EmotionFeatures)
    ensures r.positive <==> exists i :: 0 <= i < |d.positive| && Contains(PreprocessText(text), d.positive[i])
    ensures r.negative <==> exists i :: 0 <= i < |d.negative| && Contains(PreprocessText(text), d.negative[i])
    ensures r.veryNegative <==>
      exists i :: 0 <= i < |d.veryNegative| && Contains(PreprocessText(text), d.veryNegative[i])
    ensures r.swear <==> exists i :: 0 <= i < |d.swear| && Contains(PreprocessText(text), d.swear[i])
  {
    var t := PreprocessText(text);
    EmotionFeatures(AnyContained(t, d.positive), AnyContained(t, d.negative),
                    AnyContained(t, d.veryNegative), AnyContained(t, d.swear))
  }
}
