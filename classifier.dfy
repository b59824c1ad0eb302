/** The query-intent classifier of `backend/utils.py`: a query is a lyric
    query when it has many words or is dense in stopwords, and otherwise a
    title/artist query. */
module Classifier {
  import opened Text

  /** The stopword set of the source. */
  const Stopwords: set<string> := {
    "the", "be", "you", "i", "to", "and", "we", "me", "a", "in", "on",
    "of", "my", "our", "your", "at", "is", "it", "that", "for", "with",
    "this", "are", "was", "im", "so", "oh", "baby", "yeah"
  }

  /** Token count from which a query is always a lyric query. */
  const MinLyricTokens: nat := 4

  /** Stopword fraction a shorter query must exceed to be a lyric query. */
  const StopwordDensity: real := 0.3

  /** Python's `string.punctuation`: the 32 printable ASCII characters that
      are neither letters, digits nor white space. */
  predicate IsPunctuation(c: char) {
    ('!' <= c <= '/') || (':' <= c <= '@') || ('[' <= c <= '`') || ('{' <= c <= '~')
  }

  /** `query.translate(str.maketrans("", "", string.punctuation))`. */
  function StripPunctuation(s: string): (t: string)
    ensures |t| <= |s|
    ensures forall i :: 0 <= i < |t| ==> !IsPunctuation(t[i])
  {
    if s == [] then []
    else if IsPunctuation(s[0]) then StripPunctuation(s[1..])
    else [s[0]] + StripPunctuation(s[1..])
  }

  /** Removing punctuation keeps exactly the other characters. */
  lemma {:induction false} StripPunctuationKeeps(s: string)
    ensures forall c :: c in StripPunctuation(s) <==> c in s && !IsPunctuation(c)
  {
    if s != [] {
      StripPunctuationKeeps(s[1..]);
      assert s == [s[0]] + s[1..];
    }
  }

  function LowerChar(c: char): char {
    if 'A' <= c <= 'Z' then (c as int - 'A' as int + 'a' as int) as char else c
  }

  /** `s.lower()`, on the ASCII letters. */
  function Lower(s: string): (t: string)
    ensures |t| == |s|
    ensures forall i :: 0 <= i < |s| ==> t[i] == LowerChar(s[i])
  {
    if s == [] then [] else [LowerChar(s[0])] + Lower(s[1..])
  }

  /** The words the classifier looks at: punctuation removed, lower-cased,
      split on white space. */
  function Tokens(query: string): (tokens: seq<string>)
    ensures forall k :: 0 <= k < |tokens| ==> tokens[k] != [] && NoSpace(tokens[k])
    ensures forall k, i :: 0 <= k < |tokens| && 0 <= i < |tokens[k]| ==>
      !IsPunctuation(tokens[k][i]) && !('A' <= tokens[k][i] <= 'Z')
  {
    Split(Lower(StripPunctuation(query)))
  }

  predicate HasStopword(tokens: seq<string>) {
    exists k :: 0 <= k < |tokens| && tokens[k] in Stopwords
  }

  /** `sum(1 for t in tokens if t in STOPWORDS)`. */
  function StopwordCount(tokens: seq<string>): (n: nat)
    ensures n <= |tokens|
    ensures n > 0 <==> HasStopword(tokens)
  {
    if tokens == [] then 0
    else
      var rest := StopwordCount(tokens[1..]);
      assert HasStopword(tokens) <==> tokens[0] in Stopwords || HasStopword(tokens[1..]) by {
        if HasStopword(tokens) {
          var k :| 0 <= k < |tokens| && tokens[k] in Stopwords;
          if k > 0 { assert tokens[1..][k - 1] in Stopwords; }
        }
        if HasStopword(tokens[1..]) {
          var k :| 0 <= k < |tokens[1..]| && tokens[1..][k] in Stopwords;
          assert tokens[k + 1] in Stopwords;
        }
      }
      (if tokens[0] in Stopwords then 1 else 0) + rest
  }

  /** With at most three tokens, a stopword fraction above 0.3 means exactly
      one stopword or more. */
  lemma ShortDensity(count: nat, len: nat)
    requires 0 < len < MinLyricTokens && count <= len
    ensures (count as real) / (len as real) > StopwordDensity <==> count >= 1
  {
    if len == 1 {
    } else if len == 2 {
    } else {
      assert len == 3;
    }
  }

  /** The density test in integer arithmetic, for any token count. */
  lemma DensityAsIntegers(count: nat, len: nat)
    requires len > 0
    ensures (count as real) / (len as real) > StopwordDensity <==> 10 * count > 3 * len
  {
    var c, n := count as real, len as real;
    var q := c / n;
    assert q * n == c;
    ScaleStrict(q, StopwordDensity, n);
    assert StopwordDensity * n == (3 * len) as real / 10.0;
    assert c == (10 * count) as real / 10.0;
  }

  lemma ScaleStrict(a: real, b: real, n: real)
    requires n > 0.0
    ensures a > b <==> a * n > b * n
  {
    if a > b {
      assert (a - b) * n > 0.0;
    } else {
      assert (b - a) * n >= 0.0;
    }
  }

  /** The density rule on fewer than four tokens is the stopword test. */
  lemma DensityRule(tokens: seq<string>)
    requires |tokens| < MinLyricTokens
    ensures (|tokens| > 0 && (StopwordCount(tokens) as real) / (|tokens| as real) > StopwordDensity)
        <==> HasStopword(tokens)
  {
    if |tokens| > 0 {
      ShortDensity(StopwordCount(tokens), |tokens|);
    }
  }

  /** `is_lyric_query(query)`: true for a lyric query, false for a
      title/artist query. */
  function IsLyricQuery(query: string): (lyric: bool)
    ensures lyric <==> |Tokens(query)| >= MinLyricTokens || HasStopword(Tokens(query))
  {
    if query == [] then
      assert Tokens(query) == [] by {
        assert Lower(StripPunctuation(query)) == [];
      }
      false
    else
      var tokens := Tokens(query);
      if |tokens| >= MinLyricTokens then true
      else
        DensityRule(tokens);
        if |tokens| > 0 && (StopwordCount(tokens) as real) / (|tokens| as real) > StopwordDensity then true
        else false
  }

  /** A query made only of punctuation and white space has no token, is a
      title/artist query, and the density test is never reached. */
  lemma {:induction false} PunctuationOnlyQuery(query: string)
    requires forall i :: 0 <= i < |query| ==> IsPunctuation(query[i]) || IsSpace(query[i])
    ensures Tokens(query) == []
    ensures !IsLyricQuery(query)
  {
    StrippedIsBlank(query);
    var t := Lower(StripPunctuation(query));
    assert IsBlank(t) by {
      forall i | 0 <= i < |t| ensures IsSpace(t[i]) {
        assert IsSpace(StripPunctuation(query)[i]);
      }
    }
    SplitEmptyIffBlank(t);
  }

  lemma {:induction false} StrippedIsBlank(query: string)
    requires forall i :: 0 <= i < |query| ==> IsPunctuation(query[i]) || IsSpace(query[i])
    ensures IsBlank(StripPunctuation(query))
  {
    if query != [] {
      assert forall i :: 0 <= i < |query[1..]| ==> IsPunctuation(query[1..][i]) || IsSpace(query[1..][i]) by {
        forall i | 0 <= i < |query[1..]| ensures IsPunctuation(query[1..][i]) || IsSpace(query[1..][i]) {
          assert query[1..][i] == query[i + 1];
        }
      }
      StrippedIsBlank(query[1..]);
    }
  }

  /** Inserting a punctuation character anywhere changes no token. */
  lemma {:induction false} PunctuationIgnored(a: string, p: char, b: string)
    requires IsPunctuation(p)
    ensures Tokens(a + [p] + b) == Tokens(a + b)
  {
    StripAppend(a, [p] + b);
    StripAppend(a, b);
    assert ([p] + b)[1..] == b;
    assert a + [p] + b == a + ([p] + b);
  }

  lemma {:induction false} StripAppend(a: string, b: string)
    ensures StripPunctuation(a + b) == StripPunctuation(a) + StripPunctuation(b)
  {
    if a != [] {
      assert (a + b)[1..] == a[1..] + b;
      StripAppend(a[1..], b);
    } else {
      assert a + b == b;
    }
  }

  /** Changing the case of letters changes no token: two queries that agree
      up to case have the same tokens, hence the same class. */
  lemma {:induction false} CaseIgnored(q1: string, q2: string)
    requires |q1| == |q2|
    requires forall i :: 0 <= i < |q1| ==> LowerChar(q1[i]) == LowerChar(q2[i])
    ensures Tokens(q1) == Tokens(q2)
    ensures IsLyricQuery(q1) == IsLyricQuery(q2)
  {
    LowerStripAgree(q1, q2);
  }

  lemma {:induction false} LowerStripAgree(q1: string, q2: string)
    requires |q1| == |q2|
    requires forall i :: 0 <= i < |q1| ==> LowerChar(q1[i]) == LowerChar(q2[i])
    ensures Lower(StripPunctuation(q1)) == Lower(StripPunctuation(q2))
  {
    if q1 != [] {
      assert LowerChar(q1[0]) == LowerChar(q2[0]);
      assert IsPunctuation(q1[0]) == IsPunctuation(q2[0]);
      forall i | 0 <= i < |q1[1..]| ensures LowerChar(q1[1..][i]) == LowerChar(q2[1..][i]) {
        assert q1[1..][i] == q1[i + 1] && q2[1..][i] == q2[i + 1];
      }
      LowerStripAgree(q1[1..], q2[1..]);
      if !IsPunctuation(q1[0]) {
        assert Lower([q1[0]] + StripPunctuation(q1[1..]))
            == [LowerChar(q1[0])] + Lower(StripPunctuation(q1[1..]));
        assert Lower([q2[0]] + StripPunctuation(q2[1..]))
            == [LowerChar(q2[0])] + Lower(StripPunctuation(q2[1..]));
      }
    }
  }

  // ----- particular queries -----

  lemma EmptyQueryIsTitleArtist()
    ensures !IsLyricQuery("")
  {
  }

  /** A word: no punctuation, no white space. */
  predicate IsPlainWord(w: string) {
    w != [] && forall i :: 0 <= i < |w| ==> !IsPunctuation(w[i]) && !IsSpace(w[i])
  }

  lemma {:induction false} StripPlainWord(w: string)
    requires forall i :: 0 <= i < |w| ==> !IsPunctuation(w[i])
    ensures StripPunctuation(w) == w
  {
    if w != [] {
      assert forall i :: 0 <= i < |w[1..]| ==> !IsPunctuation(w[1..][i]) by {
        forall i | 0 <= i < |w[1..]| ensures !IsPunctuation(w[1..][i]) {
          assert w[1..][i] == w[i + 1];
        }
      }
      StripPlainWord(w[1..]);
      assert w == [w[0]] + w[1..];
    }
  }

  lemma LowerPlainWord(w: string)
    requires IsPlainWord(w)
    ensures Lower(w) != [] && NoSpace(Lower(w))
  {
    assert Lower(w)[0] == LowerChar(w[0]);
  }

  /** A one-word query (such as "Havana", or "The") is a lyric query exactly
      when its lower-cased form is a stopword. */
  lemma SingleWordQuery(w: string)
    requires IsPlainWord(w)
    ensures Tokens(w) == [Lower(w)]
    ensures IsLyricQuery(w) <==> Lower(w) in Stopwords
  {
    StripPlainWord(w);
    LowerPlainWord(w);
    SplitOneWord(Lower(w));
    assert [Lower(w)][0] == Lower(w);
  }

  lemma StripTwoWords(a: string, b: string)
    requires IsPlainWord(a) && IsPlainWord(b)
    ensures StripPunctuation(a + [' '] + b) == a + [' '] + b
  {
    StripPlainWord(a);
    StripPlainWord(b);
    StripAppend(a, [' '] + b);
    StripAppend([' '], b);
    assert a + [' '] + b == a + ([' '] + b);
  }

  /** Lower-casing works character by character, so it distributes over
      concatenation. */
  lemma {:induction false} LowerAppend(a: string, b: string)
    ensures Lower(a + b) == Lower(a) + Lower(b)
  {
    if a != [] {
      assert (a + b)[1..] == a[1..] + b;
      LowerAppend(a[1..], b);
    } else {
      assert a + b == b;
    }
  }

  lemma LowerTwoWords(a: string, b: string)
    ensures Lower(a + [' '] + b) == Lower(a) + [' '] + Lower(b)
  {
    LowerAppend(a + [' '], b);
    LowerAppend(a, [' ']);
    assert Lower([' ']) == [' '];
  }

  lemma TwoWordTokens(a: string, b: string)
    requires IsPlainWord(a) && IsPlainWord(b)
    ensures Tokens(a + [' '] + b) == [Lower(a), Lower(b)]
  {
    StripTwoWords(a, b);
    LowerTwoWords(a, b);
    LowerPlainWord(a);
    LowerPlainWord(b);
    SplitWordThenSpace(Lower(a), Lower(b));
    SplitOneWord(Lower(b));
  }

  /** A two-word query (such as "Taylor Swift") is a lyric query exactly when
      one of its lower-cased words is a stopword. */
  lemma TwoWordQuery(a: string, b: string)
    requires IsPlainWord(a) && IsPlainWord(b)
    ensures IsLyricQuery(a + [' '] + b) <==> Lower(a) in Stopwords || Lower(b) in Stopwords
  {
    TwoWordTokens(a, b);
    var t := [Lower(a), Lower(b)];
    if HasStopword(t) {
      var k :| 0 <= k < |t| && t[k] in Stopwords;
      assert k == 0 || k == 1;
    }
    if Lower(a) in Stopwords {
      assert t[0] in Stopwords;
    } else if Lower(b) in Stopwords {
      assert t[1] in Stopwords;
    }
  }
}
