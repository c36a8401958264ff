/** Closing-line matching (internal/aicall/closingline.go): the tokens of a text, the
    one-row dynamic programme for the longest common subsequence, and the verdict
    that a turn has said the line. */
module ClosingLine {
  import opened Util
  import opened Subsequences

  /** The Unicode classes the tokeniser consults. */
  datatype Classes = Classes(isHan: char -> bool, isLetterOrDigit: char -> bool,
                             toLower: char -> char, isSpace: char -> bool)

  type Token = string

  //
  // The reference longest common subsequence.
  //

  /** The textbook recursion on last elements. */
  function Lcs<T(==)>(a: seq<T>, b: seq<T>): nat
    decreases |a| + |b|
  {
    if a == [] || b == [] then 0
    else if a[|a| - 1] == b[|b| - 1] then 1 + Lcs(a[..|a| - 1], b[..|b| - 1])
    else Max(Lcs(a[..|a| - 1], b), Lcs(a, b[..|b| - 1]))
  }

  /** No common subsequence is longer than Lcs. */
  lemma {:induction false} LcsIsMaximal<T>(c: seq<T>, a: seq<T>, b: seq<T>)
    requires Subsequence(c, a) && Subsequence(c, b)
    ensures |c| <= Lcs(a, b)
    decreases |a| + |b|
  {
    if c != [] {
      var z, x, y := c[|c| - 1], a[|a| - 1], b[|b| - 1];
      if x == y {
        SubsequenceOfInit(c, a);
        SubsequenceOfInit(c, b);
        LcsIsMaximal(c[..|c| - 1], a[..|a| - 1], b[..|b| - 1]);
      } else if z != x {
        LcsIsMaximal(c, a[..|a| - 1], b);
      } else {
        LcsIsMaximal(c, a, b[..|b| - 1]);
      }
    }
  }

  /** Lcs is achieved by a common subsequence. */
  lemma {:induction false} LcsIsAchieved<T>(a: seq<T>, b: seq<T>) returns (c: seq<T>)
    ensures Subsequence(c, a) && Subsequence(c, b) && |c| == Lcs(a, b)
    decreases |a| + |b|
  {
    if a == [] || b == [] {
      c := [];
    } else if a[|a| - 1] == b[|b| - 1] {
      c := LcsIsAchieved(a[..|a| - 1], b[..|b| - 1]);
      c := c + [a[|a| - 1]];
      assert c[..|c| - 1] + [a[|a| - 1]] == c;
    } else if Lcs(a[..|a| - 1], b) > Lcs(a, b[..|b| - 1]) {
      c := LcsIsAchieved(a[..|a| - 1], b);
    } else {
      c := LcsIsAchieved(a, b[..|b| - 1]);
    }
  }

  /** What commonSubsequence is for: the length is achieved, and nothing common is longer. */
  lemma LcsIsLongest<T(!new)>(a: seq<T>, b: seq<T>)
    ensures exists c :: Subsequence(c, a) && Subsequence(c, b) && |c| == Lcs(a, b)
    ensures forall c :: Subsequence(c, a) && Subsequence(c, b) ==> |c| <= Lcs(a, b)
  {
    var c := LcsIsAchieved(a, b);
    forall d | Subsequence(d, a) && Subsequence(d, b) ensures |d| <= Lcs(a, b) {
      LcsIsMaximal(d, a, b);
    }
  }

  /** The whole of a is common exactly when a is a subsequence of b. */
  lemma LcsIsFullExactlyWhenSubsequence<T>(a: seq<T>, b: seq<T>)
    ensures Lcs(a, b) <= |a|
    ensures Lcs(a, b) == |a| <==> Subsequence(a, b)
  {
    var c := LcsIsAchieved(a, b);
    SubsequenceIsNoLonger(c, a);
    SubsequenceReflexive(a);
    if Subsequence(a, b) {
      LcsIsMaximal(a, a, b);
    }
  }

  /** Adding elements anywhere in b never lowers Lcs. */
  lemma LcsGrowsWithWords<T>(a: seq<T>, b: seq<T>, more: seq<T>)
    requires Subsequence(b, more)
    ensures Lcs(a, b) <= Lcs(a, more)
  {
    var c := LcsIsAchieved(a, b);
    SubsequenceTransitive(c, b, more);
    LcsIsMaximal(c, a, more);
  }

  /** One cell of the table of prefixes from its three neighbours. */
  lemma LcsCell<T>(a: seq<T>, i: nat, b: seq<T>, j: nat)
    requires i < |a| && j < |b|
    ensures Lcs(a[..i + 1], b[..j + 1]) ==
            if a[i] == b[j] then Lcs(a[..i], b[..j]) + 1
            else Max(Lcs(a[..i], b[..j + 1]), Lcs(a[..i + 1], b[..j]))
  {
    assert a[..i + 1][..i] == a[..i];
    assert b[..j + 1][..j] == b[..j];
  }

  /** The single-row programme: row[j + 1] still holds the row above until it is
      overwritten, and diagonal is what row[j] held before it was. */
  method CommonSubsequence<T(==)>(a: seq<T>, b: seq<T>) returns (n: nat)
    ensures n == Lcs(a, b)
  {
    var row := new nat[|b| + 1](_ => 0);
    for i := 0 to |a|
      invariant forall k :: 0 <= k <= |b| ==> row[k] == Lcs(a[..i], b[..k])
    {
      var diagonal := 0;
      for j := 0 to |b|
        invariant diagonal == Lcs(a[..i], b[..j])
        invariant forall k :: 0 <= k <= j ==> row[k] == Lcs(a[..i + 1], b[..k])
        invariant forall k :: j < k <= |b| ==> row[k] == Lcs(a[..i], b[..k])
      {
        LcsCell(a, i, b, j);
        var saved := row[j + 1];
        if a[i] == b[j] {
          row[j + 1] := diagonal + 1;
        } else if row[j] > row[j + 1] {
          row[j + 1] := row[j];
        }
        diagonal := saved;
      }
    }
    assert a[..|a|] == a && b[..|b|] == b;
    n := row[|b|];
  }

  //
  // Tokens.
  //

  /** A full-width ASCII rune as the plain one, any other as it is. */
  function Fold(r: char): char {
    if 0xFF01 <= r as int <= 0xFF5E then (r as int - 0xFEE0) as char else r
  }

  predicate IsApostrophe(r: char) { r == '\'' || r == '\U{2019}' }

  function Flushed(word: string): seq<Token> { if word == [] then [] else [word] }

  /** The tokens of text with word already begun. */
  function TokensFrom(cl: Classes, text: string, word: string): seq<Token>
    decreases |text|
  {
    if text == [] then Flushed(word)
    else
      var r := Fold(text[0]);
      if cl.isHan(r) then Flushed(word) + [[r]] + TokensFrom(cl, text[1..], [])
      else if cl.isLetterOrDigit(r) then TokensFrom(cl, text[1..], word + [cl.toLower(r)])
      else if IsApostrophe(r) then TokensFrom(cl, text[1..], word)
      else Flushed(word) + TokensFrom(cl, text[1..], [])
  }

  function Tokens(cl: Classes, text: string): seq<Token> { TokensFrom(cl, text, []) }

  /** What one rune ends, and the word it leaves begun. */
  function Ended(cl: Classes, r: char, word: string): seq<Token> {
    if cl.isHan(r) then Flushed(word) + [[r]]
    else if cl.isLetterOrDigit(r) || IsApostrophe(r) then []
    else Flushed(word)
  }

  function Begun(cl: Classes, r: char, word: string): string {
    if cl.isHan(r) then []
    else if cl.isLetterOrDigit(r) then word + [cl.toLower(r)]
    else if IsApostrophe(r) then word
    else []
  }

  lemma OneRune(cl: Classes, text: string, i: nat, word: string, tokens: seq<Token>)
    requires i < |text|
    ensures var r := Fold(text[i]);
            tokens + TokensFrom(cl, text[i..], word) ==
            (tokens + Ended(cl, r, word)) + TokensFrom(cl, text[i + 1..], Begun(cl, r, word))
  {
    var r := Fold(text[i]);
    assert text[i..][1..] == text[i + 1..];
    assert TokensFrom(cl, text[i..], word) == Ended(cl, r, word) + TokensFrom(cl, text[i + 1..], Begun(cl, r, word));
  }

  method ClosingTokens(cl: Classes, text: string) returns (tokens: seq<Token>)
    ensures tokens == Tokens(cl, text)
  {
    tokens := [];
    var word: string := [];
    for i := 0 to |text|
      invariant Tokens(cl, text) == tokens + TokensFrom(cl, text[i..], word)
    {
      OneRune(cl, text, i, word, tokens);
      var r := Fold(text[i]);
      ghost var ended, begun := tokens + Ended(cl, r, word), Begun(cl, r, word);
      if cl.isHan(r) {
        tokens := tokens + Flushed(word) + [[r]];
        word := [];
      } else if cl.isLetterOrDigit(r) {
        word := word + [cl.toLower(r)];
      } else if !IsApostrophe(r) {
        tokens := tokens + Flushed(word);
        word := [];
      }
      assert tokens == ended && word == begun;
    }
    tokens := tokens + Flushed(word);
  }

  predicate IsSeparator(cl: Classes, r: char) {
    !cl.isHan(Fold(r)) && !cl.isLetterOrDigit(Fold(r)) && !IsApostrophe(Fold(r))
  }

  /** A separator between two texts ends the word before it and begins none. */
  lemma {:induction false} TokensAcrossSeparator(cl: Classes, s: string, sep: char, t: string, word: string)
    requires IsSeparator(cl, sep)
    ensures TokensFrom(cl, s + [sep] + t, word) == TokensFrom(cl, s, word) + Tokens(cl, t)
    decreases |s|
  {
    if s == [] {
      assert (s + [sep] + t)[1..] == t;
    } else {
      assert (s + [sep] + t)[1..] == s[1..] + [sep] + t;
      var r := Fold(s[0]);
      if cl.isHan(r) {
        TokensAcrossSeparator(cl, s[1..], sep, t, []);
      } else if cl.isLetterOrDigit(r) {
        TokensAcrossSeparator(cl, s[1..], sep, t, word + [cl.toLower(r)]);
      } else if IsApostrophe(r) {
        TokensAcrossSeparator(cl, s[1..], sep, t, word);
      } else {
        TokensAcrossSeparator(cl, s[1..], sep, t, []);
      }
    }
  }

  /** Full-width forms, wherever they stand, do not matter. */
  lemma {:induction false} WidthDoesNotMatter(cl: Classes, text: string, word: string)
    ensures TokensFrom(cl, seq(|text|, i requires 0 <= i < |text| => Fold(text[i])), word) == TokensFrom(cl, text, word)
    decreases |text|
  {
    if text != [] {
      var folded := seq(|text|, i requires 0 <= i < |text| => Fold(text[i]));
      assert folded[1..] == seq(|text[1..]|, i requires 0 <= i < |text[1..]| => Fold(text[1..][i]));
      WidthDoesNotMatter(cl, text[1..], word);
      WidthDoesNotMatter(cl, text[1..], []);
      WidthDoesNotMatter(cl, text[1..], word + [cl.toLower(Fold(text[0]))]);
    }
  }

  //
  // The verdict.
  //

  const COVERAGE := 0.6

  /** How much of the line the words carry; 1 when there is nothing to compare. */
  function Coverage(cl: Classes, line: string, said: string): real {
    var want := Tokens(cl, line);
    if want == [] then 1.0 else Lcs(want, Tokens(cl, said)) as real / |want| as real
  }

  predicate Says(cl: Classes, line: string, said: string) { Coverage(cl, line, said) >= COVERAGE }

  method SaysTheClosingLine(cl: Classes, line: string, said: string) returns (coverage: real, isSaid: bool)
    ensures coverage == Coverage(cl, line, said)
    ensures isSaid == Says(cl, line, said)
  {
    var want := ClosingTokens(cl, line);
    if |want| == 0 {
      return 1.0, true;
    }
    var got := ClosingTokens(cl, said);
    var common := CommonSubsequence(want, got);
    coverage := common as real / |want| as real;
    isSaid := coverage >= COVERAGE;
  }

  lemma QuotientIsOne(x: nat, y: nat)
    requires y > 0 && x <= y
    ensures 0.0 <= x as real / y as real <= 1.0
    ensures x as real / y as real == 1.0 <==> x == y
  {
    var q := x as real / y as real;
    assert q * y as real == x as real;
  }

  lemma QuotientGrows(x: nat, x': nat, y: nat)
    requires y > 0 && x <= x'
    ensures x as real / y as real <= x' as real / y as real
  {
    var d := (x' - x) as real;
    assert x' as real == x as real + d;
    assert x' as real / y as real == x as real / y as real + d / y as real;
  }

  /** Coverage lies in [0, 1] and is 1 exactly when the line's tokens are said in order. */
  lemma CoverageIsFull(cl: Classes, line: string, said: string)
    ensures 0.0 <= Coverage(cl, line, said) <= 1.0
    ensures Coverage(cl, line, said) == 1.0 <==> Subsequence(Tokens(cl, line), Tokens(cl, said))
  {
    var want, got := Tokens(cl, line), Tokens(cl, said);
    if want != [] {
      LcsIsFullExactlyWhenSubsequence(want, got);
      QuotientIsOne(Lcs(want, got), |want|);
    }
  }

  /** Words said around what was already said never lower the coverage, so a line
      once said stays said. */
  lemma CoverageGrowsWithWords(cl: Classes, line: string, said: string, more: string)
    requires Subsequence(Tokens(cl, said), Tokens(cl, more))
    ensures Coverage(cl, line, said) <= Coverage(cl, line, more)
    ensures Says(cl, line, said) ==> Says(cl, line, more)
  {
    var want := Tokens(cl, line);
    if want != [] {
      LcsGrowsWithWords(want, Tokens(cl, said), Tokens(cl, more));
      QuotientGrows(Lcs(want, Tokens(cl, said)), Lcs(want, Tokens(cl, more)), |want|);
    }
  }

  /** Two transcripts of a turn joined by a space cover the line at least as well as
      either alone (a turn can carry several). */
  lemma JoinedTranscriptsCoverMore(cl: Classes, line: string, first: string, second: string)
    requires IsSeparator(cl, ' ')
    ensures Coverage(cl, line, first) <= Coverage(cl, line, first + " " + second)
    ensures Coverage(cl, line, second) <= Coverage(cl, line, first + " " + second)
  {
    TokensAcrossSeparator(cl, first, ' ', second, []);
    SubsequenceOfConcat(Tokens(cl, first), Tokens(cl, second));
    CoverageGrowsWithWords(cl, line, first, first + " " + second);
    CoverageGrowsWithWords(cl, line, second, first + " " + second);
  }

  /** The line is said exactly when there is nothing to compare or some of its tokens, at least
      three in five of them, come in its order among those said. */
  lemma SaysExactlyWhen(cl: Classes, line: string, said: string)
    ensures var want := Tokens(cl, line);
            Says(cl, line, said) <==>
            || want == []
            || exists c :: Subsequence(c, want) && Subsequence(c, Tokens(cl, said)) && 5 * |c| >= 3 * |want|
  {
    var want, got := Tokens(cl, line), Tokens(cl, said);
    LcsIsLongest(want, got);
    if want != [] {
      ThreeInFive(Lcs(want, got), |want|);
    }
  }

  lemma ThreeInFive(x: nat, y: nat)
    requires y > 0
    ensures x as real / y as real >= 0.6 <==> 5 * x >= 3 * y
  {
    var q, d := x as real / y as real, y as real;
    SignOfProduct(q - 0.6, d);
    assert (q - 0.6) * d == q * d - 0.6 * d == x as real - 0.6 * d;
  }

  lemma SignOfProduct(a: real, d: real)
    requires d > 0.0
    ensures a >= 0.0 <==> a * d >= 0.0
  {
  }

  //
  // What becomes of each kind of rune.
  //

  ghost predicate IsPlainWord(cl: Classes, text: string) {
    forall i :: 0 <= i < |text| ==> Fold(text[i]) == text[i] && !cl.isHan(text[i]) && cl.isLetterOrDigit(text[i])
  }

  function Lowered(cl: Classes, text: string): string {
    seq(|text|, i requires 0 <= i < |text| => cl.toLower(text[i]))
  }

  /** Letters and digits in a row are one token, in lower case. */
  lemma {:induction false} LettersMakeOneWord(cl: Classes, text: string, word: string)
    requires IsPlainWord(cl, text) && text != []
    ensures TokensFrom(cl, text, word) == [word + Lowered(cl, text)]
    decreases |text|
  {
    var begun, whole := word + [cl.toLower(text[0])], word + Lowered(cl, text);
    assert whole == begun + Lowered(cl, text[1..]);
    assert TokensFrom(cl, text, word) == TokensFrom(cl, text[1..], begun);
    if |text| > 1 {
      LettersMakeOneWord(cl, text[1..], begun);
      assert TokensFrom(cl, text, word) == [whole];
    } else {
      assert text[1..] == [];
      assert begun == whole;
      assert TokensFrom(cl, text, word) == [whole];
    }
  }

  /** A Han character is a token by itself and ends the word before it. */
  lemma {:induction false} HanStandsAlone(cl: Classes, s: string, han: char, t: string, word: string)
    requires cl.isHan(Fold(han))
    ensures TokensFrom(cl, s + [han] + t, word) == TokensFrom(cl, s, word) + [[Fold(han)]] + Tokens(cl, t)
    decreases |s|
  {
    if s == [] {
      assert (s + [han] + t)[1..] == t;
    } else {
      assert (s + [han] + t)[1..] == s[1..] + [han] + t;
      var r := Fold(s[0]);
      HanStandsAlone(cl, s[1..], han, t, Begun(cl, r, word));
      assert TokensFrom(cl, s, word) == Ended(cl, r, word) + TokensFrom(cl, s[1..], Begun(cl, r, word));
    }
  }

  /** An apostrophe, straight or curly, is as if it were not there. */
  lemma {:induction false} ApostrophesDoNotMatter(cl: Classes, s: string, mark: char, t: string, word: string)
    requires mark in "'\U{2019}" && !cl.isHan(mark) && !cl.isLetterOrDigit(mark)
    ensures TokensFrom(cl, s + [mark] + t, word) == TokensFrom(cl, s + t, word)
    decreases |s|
  {
    if s == [] {
      assert (s + [mark] + t)[1..] == t && s + t == t;
    } else {
      assert (s + [mark] + t)[1..] == s[1..] + [mark] + t && (s + t)[1..] == s[1..] + t;
      ApostrophesDoNotMatter(cl, s[1..], mark, t, Begun(cl, Fold(s[0]), word));
    }
  }

  /** Lower-casing twice is lower-casing once, and keeps a rune's class. */
  ghost predicate KeepsClasses(cl: Classes) {
    forall r ::
      var low := cl.toLower(r);
      && Fold(low) == cl.toLower(Fold(r)) && cl.toLower(low) == low
      && cl.isHan(cl.toLower(r)) == cl.isHan(r) && cl.isLetterOrDigit(cl.toLower(r)) == cl.isLetterOrDigit(r)
      && IsApostrophe(cl.toLower(r)) == IsApostrophe(r)
      && (cl.isHan(r) ==> low == r)
  }

  /** Case does not matter. */
  lemma {:induction false} CaseDoesNotMatter(cl: Classes, text: string, word: string)
    requires KeepsClasses(cl)
    ensures TokensFrom(cl, Lowered(cl, text), word) == TokensFrom(cl, text, word)
    decreases |text|
  {
    if text != [] {
      var lowered := Lowered(cl, text);
      assert lowered[1..] == Lowered(cl, text[1..]);
      var r := Fold(text[0]);
      assert Fold(lowered[0]) == cl.toLower(r);
      assert Begun(cl, Fold(lowered[0]), word) == Begun(cl, r, word);
      CaseDoesNotMatter(cl, text[1..], Begun(cl, r, word));
    }
  }

  //
  // Trimming, for the words of a turn (strings.TrimSpace).
  //

  function TrimLeft(cl: Classes, s: string): string
    decreases |s|
  {
    if s != [] && cl.isSpace(s[0]) then TrimLeft(cl, s[1..]) else s
  }

  function TrimRight(cl: Classes, s: string): string
    decreases |s|
  {
    if s != [] && cl.isSpace(s[|s| - 1]) then TrimRight(cl, s[..|s| - 1]) else s
  }

  function TrimSpace(cl: Classes, s: string): string { TrimRight(cl, TrimLeft(cl, s)) }

  /** Every space is a separator. */
  ghost predicate SpacesSeparate(cl: Classes) { forall r :: cl.isSpace(r) ==> IsSeparator(cl, r) }

  lemma {:induction false} TrimLeftKeepsTokens(cl: Classes, s: string)
    requires SpacesSeparate(cl)
    ensures Tokens(cl, TrimLeft(cl, s)) == Tokens(cl, s)
    decreases |s|
  {
    if s != [] && cl.isSpace(s[0]) {
      TrimLeftKeepsTokens(cl, s[1..]);
    }
  }

  lemma {:induction false} TrimRightKeepsTokens(cl: Classes, s: string)
    requires SpacesSeparate(cl)
    ensures Tokens(cl, TrimRight(cl, s)) == Tokens(cl, s)
    decreases |s|
  {
    if s != [] && cl.isSpace(s[|s| - 1]) {
      var init, last := s[..|s| - 1], s[|s| - 1];
      TrimRightKeepsTokens(cl, init);
      TokensAcrossSeparator(cl, init, last, "", []);
      assert s == init + [last] + "";
    }
  }

  /** Trimming takes no token. */
  lemma TrimmingKeepsTokens(cl: Classes, s: string)
    requires SpacesSeparate(cl)
    ensures Tokens(cl, TrimSpace(cl, s)) == Tokens(cl, s)
  {
    TrimLeftKeepsTokens(cl, s);
    TrimRightKeepsTokens(cl, TrimLeft(cl, s));
  }

  /** So a turn's words with one more piece, trimmed as they are kept, cover at least what
      the words before and the piece cover. */
  lemma TrimmedWordsCoverMore(cl: Classes, line: string, words: string, text: string)
    requires SpacesSeparate(cl) && IsSeparator(cl, ' ')
    ensures Coverage(cl, line, words) <= Coverage(cl, line, TrimSpace(cl, words + " " + text))
    ensures Coverage(cl, line, text) <= Coverage(cl, line, TrimSpace(cl, words + " " + text))
  {
    TrimmingKeepsTokens(cl, words + " " + text);
    JoinedTranscriptsCoverMore(cl, line, words, text);
  }

  //
  // Dating a cut inside the line (cutInFinalSentence).
  //

  const MILLISECOND := 1_000_000
  const FINAL_SENTENCE_SLACK := 400 * MILLISECOND

  predicate IsAsciiDigit(r: char) { '0' <= r <= '9' }

  /** The terminators, but for the point inside a number. */
  predicate IsSentenceEnd(runes: string, i: nat)
    requires i < |runes|
  {
    || runes[i] in "\U{3002}\U{FF01}\U{FF1F}!?"
    || (runes[i] == '.' &&
        !(0 < i && i + 1 < |runes| && IsAsciiDigit(runes[i - 1]) && IsAsciiDigit(runes[i + 1])))
  }

  predicate IsClosingMark(r: char) {
    r in "\"'\U{201D}\U{2019}\U{300D}\U{300F}\U{FF09})\U{BB}"
  }

  /** Where the line stands once its trailing terminators and closing marks are dropped. */
  function BodyEnd(cl: Classes, runes: string, end: nat): (e: nat)
    requires end <= |runes|
    ensures e <= end
  {
    if end > 0 && (IsSentenceEnd(runes, end - 1) || IsClosingMark(runes[end - 1]) || cl.isSpace(runes[end - 1]))
    then BodyEnd(cl, runes, end - 1) else end
  }

  /** The last sentence end before n, -1 for none. */
  function LastSentenceEnd(runes: string, n: nat): (i: int)
    requires n <= |runes|
    ensures -1 <= i < n
  {
    if n == 0 then -1 else if IsSentenceEnd(runes, n - 1) then n - 1 else LastSentenceEnd(runes, n - 1)
  }

  function Weigh(cl: Classes, runes: string): nat {
    if runes == [] then 0
    else (if cl.isLetterOrDigit(runes[0]) then 1 else 0) + Weigh(cl, runes[1..])
  }

  /** The estimated length of the line's final sentence; None when the rule does not apply. */
  function FinalSentence(cl: Classes, line: string, played: int, unplayed: int): Option<int> {
    if played < 0 || unplayed < 0 then None
    else
      var trimmed := TrimSpace(cl, line);
      var runes := trimmed[..BodyEnd(cl, trimmed, |trimmed|)];
      var split := LastSentenceEnd(runes, |runes|);
      if split < 0 then None
      else
        var total, last := Weigh(cl, runes), Weigh(cl, runes[split + 1..]);
        if total == 0 || last == 0 then None else Some((played + unplayed) * last / total)
  }

  predicate CutInFinalSentence(cl: Classes, line: string, played: int, unplayed: int) {
    var final := FinalSentence(cl, line, played, unplayed);
    final.Some? && unplayed <= final.value + FINAL_SENTENCE_SLACK
  }

  lemma {:induction false} WeighConcat(cl: Classes, a: string, b: string)
    ensures Weigh(cl, a + b) == Weigh(cl, a) + Weigh(cl, b)
    decreases |a|
  {
    if a == [] {
      assert a + b == b;
    } else {
      WeighConcat(cl, a[1..], b);
      assert (a + b)[1..] == a[1..] + b;
    }
  }

  lemma ShareOf(x: nat, part: nat, whole: nat)
    requires part <= whole && whole > 0
    ensures 0 <= x * part / whole <= x
  {
    assert x * part <= x * whole by {
      assert x * (whole - part) >= 0;
    }
    QuotientAtMost(x * part, x, whole);
  }

  lemma QuotientAtMost(n: nat, x: nat, whole: nat)
    requires n <= x * whole && whole > 0
    ensures n / whole <= x
  {
    var q := n / whole;
    assert q * whole <= n;
    assert (q - x) * whole <= 0;
  }

  /** The final sentence takes a share of the line's audio; and of two cuts in one line, if
      the earlier fell in its final sentence so did the later. */
  lemma LaterCutsCountToo(cl: Classes, line: string, played: nat, unplayed: nat, later: nat)
    requires later <= unplayed
    ensures var final := FinalSentence(cl, line, played, unplayed);
            && (final.Some? ==> 0 <= final.value <= played + unplayed)
            && FinalSentence(cl, line, played + later, unplayed - later) == final
            && (CutInFinalSentence(cl, line, played, unplayed) ==>
                  CutInFinalSentence(cl, line, played + later, unplayed - later))
  {
    var trimmed := TrimSpace(cl, line);
    var runes := trimmed[..BodyEnd(cl, trimmed, |trimmed|)];
    var split := LastSentenceEnd(runes, |runes|);
    if split >= 0 {
      WeighConcat(cl, runes[..split + 1], runes[split + 1..]);
      assert runes == runes[..split + 1] + runes[split + 1..];
      var total, last := Weigh(cl, runes), Weigh(cl, runes[split + 1..]);
      if total > 0 {
        ShareOf(played + unplayed, last, total);
      }
    }
  }

  //
  // Which sentence is the final one.
  //

  const TERMINATORS := "\U{3002}\U{FF01}\U{FF1F}!?."
  const CLOSING_MARKS := "\"'\U{201D}\U{2019}\U{300D}\U{300F}\U{FF09})\U{BB}"

  /** A point between two digits of the text. */
  predicate IsDecimalPoint(s: string, i: nat)
    requires i < |s|
  {
    s[i] == '.' && 0 < i < |s| - 1 && '0' <= s[i - 1] <= '9' && '0' <= s[i + 1] <= '9'
  }

  /** One sentence, without its terminator. */
  ghost predicate IsOneSentence(s: string) {
    forall i :: 0 <= i < |s| ==> s[i] !in TERMINATORS || IsDecimalPoint(s, i)
  }

  /** Terminators, closing marks and spaces. */
  ghost predicate IsTail(cl: Classes, s: string) {
    forall i :: 0 <= i < |s| ==> s[i] in TERMINATORS || s[i] in CLOSING_MARKS || cl.isSpace(s[i])
  }

  /** Text that ends in something said. */
  ghost predicate EndsInWords(cl: Classes, s: string) {
    s != [] && s[|s| - 1] !in TERMINATORS && s[|s| - 1] !in CLOSING_MARKS && !cl.isSpace(s[|s| - 1])
  }

  lemma {:induction false} TrimRightStops(cl: Classes, body: string, tail: string) returns (k: nat)
    requires body != [] && !cl.isSpace(body[|body| - 1])
    ensures k <= |tail| && TrimRight(cl, body + tail) == body + tail[..k]
    decreases |tail|
  {
    k := |tail|;
    if tail == [] {
      assert body + tail == body;
    } else if cl.isSpace(tail[|tail| - 1]) {
      assert (body + tail)[..|body + tail| - 1] == body + tail[..|tail| - 1];
      k := TrimRightStops(cl, body, tail[..|tail| - 1]);
      assert tail[..|tail| - 1][..k] == tail[..k];
    } else {
      assert tail[..k] == tail;
    }
  }

  lemma {:induction false} BodyEndStops(cl: Classes, body: string, tail: string, end: nat)
    requires EndsInWords(cl, body) && IsTail(cl, tail)
    requires forall r :: IsAsciiDigit(r) ==> !cl.isSpace(r)
    requires |body| <= end <= |body| + |tail|
    ensures BodyEnd(cl, body + tail, end) == |body|
    decreases end
  {
    var runes := body + tail;
    if end > |body| {
      assert runes[end - 1] == tail[end - 1 - |body|];
      assert end < |runes| ==> runes[end] == tail[end - |body|];
      BodyEndStops(cl, body, tail, end - 1);
    } else {
      assert runes[end - 1] == body[|body| - 1];
    }
  }

  lemma {:induction false} NoEndAfter(runes: string, m: nat, n: nat)
    requires m <= n <= |runes| && forall i :: m <= i < n ==> !IsSentenceEnd(runes, i)
    ensures LastSentenceEnd(runes, n) == LastSentenceEnd(runes, m)
    decreases n
  {
    if n > m {
      NoEndAfter(runes, m, n - 1);
    }
  }

  /** What is weighed of a line is the line without what surrounds its words. */
  lemma WordsOfALine(cl: Classes, body: string, tail: string)
    requires EndsInWords(cl, body) && IsTail(cl, tail) && !cl.isSpace(body[0])
    requires forall r :: IsAsciiDigit(r) ==> !cl.isSpace(r)
    ensures var trimmed := TrimSpace(cl, body + tail); trimmed[..BodyEnd(cl, trimmed, |trimmed|)] == body
  {
    assert (body + tail)[0] == body[0];
    var k := TrimRightStops(cl, body, tail);
    BodyEndStops(cl, body, tail[..k], |body| + k);
    assert (body + tail[..k])[..|body|] == body;
  }

  predicate IsPoint(first: string, mark: char, second: string)
    requires first != [] && second != []
  {
    mark == '.' && IsAsciiDigit(first[|first| - 1]) && IsAsciiDigit(second[0])
  }

  lemma WhereItParts(first: string, mark: char, second: string)
    requires first != [] && second != [] && mark in TERMINATORS && IsOneSentence(second)
    ensures var body := first + [mark] + second;
            var split := LastSentenceEnd(body, |body|);
            && (!IsPoint(first, mark, second) ==> split == |first|)
            && (IsPoint(first, mark, second) && IsOneSentence(first) ==> split == -1)
  {
    var body, n := first + [mark] + second, |first|;
    forall i | n + 1 <= i < |body| ensures !IsSentenceEnd(body, i) {
      assert second == body[n + 1..];
      assert second[i - n - 1] in TERMINATORS ==> IsDecimalPoint(second, i - n - 1);
    }
    NoEndAfter(body, n + 1, |body|);
    assert body[n] == mark && body[n - 1] == first[n - 1] && body[n + 1] == second[0];
    if IsOneSentence(first) {
      forall i | 0 <= i < n ensures !IsSentenceEnd(body, i) {
        assert first == body[..n];
        assert first[i] in TERMINATORS ==> IsDecimalPoint(first, i);
      }
      NoEndAfter(body, 0, n);
    }
  }

  /** Of a line with a terminator before its last sentence, whatever closes the line, that
      sentence is the final one: it takes its share, by letters and digits, of the audio. A
      point between two digits ends no sentence. */
  lemma FinalSentenceIsTheLast(cl: Classes, first: string, mark: char, second: string, tail: string,
                               played: nat, unplayed: nat)
    requires first != [] && !cl.isSpace(first[0]) && mark in TERMINATORS
    requires EndsInWords(cl, second) && IsOneSentence(second) && IsTail(cl, tail)
    requires forall r :: IsAsciiDigit(r) ==> !cl.isSpace(r)
    ensures var line := first + [mark] + second + tail;
            var isNumber := IsPoint(first, mark, second);
            var part, whole := Weigh(cl, second), Weigh(cl, first + [mark]) + Weigh(cl, second);
            && (!isNumber ==>
                  FinalSentence(cl, line, played, unplayed) ==
                  if part == 0 then None else Some((played + unplayed) * part / whole))
            && (!isNumber && part > 0 ==>
                  (CutInFinalSentence(cl, line, played, unplayed) <==>
                   unplayed <= (played + unplayed) * part / whole + 400_000_000))
            && (isNumber && IsOneSentence(first) ==> FinalSentence(cl, line, played, unplayed).None?)
  {
    var body := first + [mark] + second;
    assert body[|body| - 1] == second[|second| - 1];
    WordsOfALine(cl, body, tail);
    WhereItParts(first, mark, second);
    assert body[|first| + 1..] == second;
    WeighConcat(cl, first + [mark], second);
  }

  /** A line with no terminator before its end, but points in numbers, is one sentence, and a cut in it comes
      before its final one. */
  lemma OneSentenceHasNoFinal(cl: Classes, words: string, tail: string, played: int, unplayed: int)
    requires EndsInWords(cl, words) && IsOneSentence(words) && !cl.isSpace(words[0]) && IsTail(cl, tail)
    requires forall r :: IsAsciiDigit(r) ==> !cl.isSpace(r)
    ensures !CutInFinalSentence(cl, words + tail, played, unplayed)
  {
    WordsOfALine(cl, words, tail);
    NoEndAfter(words, 0, |words|);
  }
}
