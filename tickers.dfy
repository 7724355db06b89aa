/** `_extract_ticker_symbols`: candidate ticker symbols of a free-text query. */
module Tickers {
  import opened Strings

  /** `''.join(c for c in word if c.isalnum())`. */
  function Clean(word: string): (r: string)
    ensures |r| <= |word|
    ensures forall i :: 0 <= i < |r| ==> IsAlnum(r[i])
  {
    if word == [] then []
    else (if IsAlnum(word[0]) then [word[0]] else []) + Clean(word[1..])
  }

  /** Every character Clean keeps comes from the word. */
  lemma {:induction false} CleanSource(word: string, i: nat) returns (j: nat)
    requires i < |Clean(word)|
    ensures j < |word| && word[j] == Clean(word)[i]
  {
    if IsAlnum(word[0]) && i == 0 {
      j := 0;
    } else {
      var i' := if IsAlnum(word[0]) then i - 1 else i;
      var j' := CleanSource(word[1..], i');
      j := j' + 1;
    }
  }

  /** Clean drops no letter or digit of the word. */
  lemma {:induction false} CleanKeeps(word: string, j: nat) returns (i: nat)
    requires j < |word| && IsAlnum(word[j])
    ensures i < |Clean(word)| && Clean(word)[i] == word[j]
  {
    if j == 0 {
      i := 0;
    } else {
      var i' := CleanKeeps(word[1..], j - 1);
      i := if IsAlnum(word[0]) then i' + 1 else i';
    }
  }

  /** `word.isalpha()`: false on the empty string. */
  predicate IsAlphaWord(word: string)
  {
    word != [] && forall i :: 0 <= i < |word| ==> IsAlpha(word[i])
  }

  /** The test the source applies to a cleaned word: alphabetic, at most five
      characters, and equal to its own upper-casing. */
  predicate IsCandidate(word: string)
  {
    IsAlphaWord(word) && |word| <= 5 && word == Upper(word)
  }

  /** The candidates among `words`, cleaned, in their order of appearance. */
  function CandidatesOf(words: seq<string>): seq<string>
  {
    if words == [] then []
    else
      var last := Clean(words[|words| - 1]);
      CandidatesOf(words[..|words| - 1]) + (if IsCandidate(last) then [last] else [])
  }

  /** What `_extract_ticker_symbols(query)` returns. */
  function TickerSymbols(query: string): seq<string>
  {
    CandidatesOf(Split(Upper(query)))
  }

  /** The loop at chatbot_app.py:505-516: upper-case, split on whitespace, clean each
      word and keep the candidates. */
  method ExtractTickerSymbols(query: string) returns (tickers: seq<string>)
    ensures tickers == TickerSymbols(query)
    ensures forall k :: 0 <= k < |tickers| ==>
              1 <= |tickers[k]| <= 5 && forall i :: 0 <= i < |tickers[k]| ==> IsUpperLetter(tickers[k][i])
  {
    var words := Split(Upper(query));
    tickers := [];
    for n := 0 to |words|
      invariant tickers == CandidatesOf(words[..n])
      invariant forall k :: 0 <= k < |tickers| ==>
                  1 <= |tickers[k]| <= 5 && forall i :: 0 <= i < |tickers[k]| ==> IsUpperLetter(tickers[k][i])
    {
      assert words[..n + 1][..n] == words[..n];
      var word := Clean(words[n]);
      if IsAlphaWord(word) && |word| <= 5 && word == Upper(word) {
        tickers := tickers + [word];
      }
    }
    assert words[..|words|] == words;
  }

  /** The same scan without the case test. */
  function AlphaWordsOf(words: seq<string>): seq<string>
  {
    if words == [] then []
    else
      var last := Clean(words[|words| - 1]);
      AlphaWordsOf(words[..|words| - 1]) + (if IsAlphaWord(last) && |last| <= 5 then [last] else [])
  }

  lemma {:induction false} CaseTestNeverRejects(words: seq<string>)
    requires forall k, i :: 0 <= k < |words| && 0 <= i < |words[k]| ==> !IsLowerLetter(words[k][i])
    ensures CandidatesOf(words) == AlphaWordsOf(words)
  {
    if words != [] {
      var w := words[|words| - 1];
      var last := Clean(w);
      forall i | 0 <= i < |last| ensures !IsLowerLetter(last[i]) {
        var j := CleanSource(w, i);
      }
      UpperFixed(last);
      CaseTestNeverRejects(words[..|words| - 1]);
    }
  }

  /** The query is upper-cased before it is split, so the case test of line 513 never
      rejects a word: the result is every cleaned word of one to five letters. */
  lemma CaseTestIsVacuous(query: string)
    ensures TickerSymbols(query) == AlphaWordsOf(Split(Upper(query)))
  {
    var u := Upper(query);
    var words := Split(u);
    forall k, i | 0 <= k < |words| && 0 <= i < |words[k]| ensures !IsLowerLetter(words[k][i]) {
      var j := SplitSource(u, k, i);
    }
    CaseTestNeverRejects(words);
  }

  /** A word with a digit in it (such as "401K") is never a candidate. */
  lemma WordWithDigitIsDropped(word: string, i: nat)
    requires i < |word| && IsDigit(word[i])
    ensures !IsCandidate(Clean(word))
  {
    var j := CleanKeeps(word, i);
    assert !IsAlpha(Clean(word)[j]);
  }

  /** A word made only of punctuation cleans to the empty string and is dropped. */
  lemma PunctuationIsDropped(word: string)
    requires forall i :: 0 <= i < |word| ==> !IsAlnum(word[i])
    ensures Clean(word) == [] && !IsCandidate(Clean(word))
  {
  }

  /** Candidates are kept in their order of appearance: the scan of a concatenation is
      the concatenation of the scans. */
  lemma {:induction false} CandidatesOfAppend(a: seq<string>, b: seq<string>)
    ensures CandidatesOf(a + b) == CandidatesOf(a) + CandidatesOf(b)
    decreases |b|
  {
    if b == [] {
      assert a + b == a;
    } else {
      var b' := b[..|b| - 1];
      assert (a + b)[..|a + b| - 1] == a + b';
      CandidatesOfAppend(a, b');
    }
  }

  lemma CandidatesSnoc(words: seq<string>, word: string, acc: seq<string>)
    requires CandidatesOf(words) == acc && IsCandidate(Clean(word))
    ensures CandidatesOf(words + [word]) == acc + [Clean(word)]
  {
    assert (words + [word])[..|words|] == words;
  }

  lemma CleanAppend(a: string, b: string)
    ensures Clean(a + b) == Clean(a) + Clean(b)
    decreases |a|
  {
    if a == [] {
      assert a + b == b;
    } else {
      assert (a + b)[1..] == a[1..] + b;
      CleanAppend(a[1..], b);
    }
  }

  lemma CleanLetters(word: string)
    requires forall i :: 0 <= i < |word| ==> IsUpperLetter(word[i])
    requires 1 <= |word| <= 5
    ensures Clean(word) == word && IsCandidate(word)
  {
    UpperFixed(word);
    if |word| > 1 {
      CleanLetters(word[1..]);
    }
  }

  lemma UpperWord(word: string, upper: string)
    requires |word| == |upper| && forall i :: 0 <= i < |word| ==> upper[i] == UpperChar(word[i])
    ensures Upper(word) == upper
  {
  }

  lemma Printable(word: string)
    requires forall i :: 0 <= i < |word| ==> '!' <= word[i] <= '~'
    ensures NoSpace(word)
  {
  }

  lemma JoinCons(words: seq<string>)
    requires |words| > 1
    ensures Join(words) == words[0] + " " + Join(words[1..])
  {
  }

  lemma ExampleJoin(query: string, given: seq<string>)
    requires query == "What is the price of AAPL today?"
    requires given == ["What", "is", "the", "price", "of", "AAPL", "today?"]
    ensures query == Join(given)
  {
    JoinCons(given);
    JoinCons(given[1..]);
    JoinCons(given[2..]);
    JoinCons(given[3..]);
    JoinCons(given[4..]);
    JoinCons(given[5..]);
    assert given[6..] == ["today?"];
  }

  lemma ExampleWordsUpper(given: seq<string>, words: seq<string>)
    requires given == ["What", "is", "the", "price", "of", "AAPL", "today?"]
    requires words == ["WHAT", "IS", "THE", "PRICE", "OF", "AAPL", "TODAY?"]
    ensures Upper(Join(given)) == Join(words)
  {
    forall k | 0 <= k < 7 ensures words[k] == Upper(given[k]) {
      UpperWord(given[k], words[k]);
    }
    UpperJoin(given, words);
  }

  lemma ExampleSplit(words: seq<string>)
    requires words == ["WHAT", "IS", "THE", "PRICE", "OF", "AAPL", "TODAY?"]
    ensures Split(Join(words)) == words
  {
    Printable(words[0]);
    Printable(words[1]);
    Printable(words[2]);
    Printable(words[3]);
    Printable(words[4]);
    Printable(words[5]);
    Printable(words[6]);
    SplitJoin(words);
  }

  lemma ExampleCandidates(a: string, b: string, c: string, d: string, e: string, f: string, g: string)
    requires a == "WHAT" && b == "IS" && c == "THE" && d == "PRICE" && e == "OF" && f == "AAPL"
    requires g == "TODAY?"
    ensures CandidatesOf([a, b, c, d, e, f, g]) == [a, b, c, d, e, f, "TODAY"]
  {
    CleanLetters(a);
    CleanLetters(b);
    CleanLetters(c);
    CleanLetters(d);
    CleanLetters(e);
    CleanLetters(f);
    var t := "TODAY";
    CleanLetters(t);
    assert g == t + "?";
    CleanAppend(t, "?");
    assert Clean("?") == [];
    assert Clean(g) == t;
    var s1 := [a];
    CandidatesSnoc([], a, []);
    assert [] + [a] == s1;
    var s2 := s1 + [b];
    CandidatesSnoc(s1, b, s1);
    var s3 := s2 + [c];
    CandidatesSnoc(s2, c, s2);
    var s4 := s3 + [d];
    CandidatesSnoc(s3, d, s3);
    var s5 := s4 + [e];
    CandidatesSnoc(s4, e, s4);
    var s6 := s5 + [f];
    CandidatesSnoc(s5, f, s5);
    CandidatesSnoc(s6, g, s6);
    assert s6 + [g] == [a, b, c, d, e, f, g];
    assert s6 + [t] == [a, b, c, d, e, f, "TODAY"];
  }

  /** "What is the price of AAPL today?": every word qualifies, so the first candidate
      is "WHAT" and not "AAPL". */
  lemma PriceOfAaplExample(query: string)
    requires query == "What is the price of AAPL today?"
    ensures TickerSymbols(query) == ["WHAT", "IS", "THE", "PRICE", "OF", "AAPL", "TODAY"]
  {
    var given := ["What", "is", "the", "price", "of", "AAPL", "today?"];
    var words := ["WHAT", "IS", "THE", "PRICE", "OF", "AAPL", "TODAY?"];
    ExampleJoin(query, given);
    ExampleWordsUpper(given, words);
    ExampleSplit(words);
    ExampleCandidates(words[0], words[1], words[2], words[3], words[4], words[5], words[6]);
  }
}
