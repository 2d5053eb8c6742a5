/**
 Synthesis of the mock tweet text: the length draw of `getRandomTweetContent`
 and the word loop of `constructRandomTweet` in `MockKafkaStreamRunner`.

 Every draw from the shared generator yields exactly one token, so the draw
 at offset `t` from the start of the loop produces the token at position `t`:
 `n` filler words with the keyword slotted in right after the filler word of
 loop index `n / 2`, that is at token position `n / 2 + 1`.
 */
module TweetContent {
  import opened JavaRuntime

  /** The fixed vocabulary of filler words. */
  const WORDS: seq<string> := [
    "Lorem", "ipsum", "dolor", "sit", "amet,",
    "consectetur", "adipiscing", "elit.", "Nulla",
    "vitae", "gravida", "quam.", "Praesent", "gravida",
    "tristique", "risus", "sit", "amet", "elementum."
  ]

  /** A token with no trimmable character in it, so it holds no space and survives `trim` at either end. */
  predicate IsWord(w: string) {
    |w| > 0 && forall k :: 0 <= k < |w| ==> !Trimmable(w[k])
  }

  /** A string without the opening brace of a template placeholder. */
  predicate BraceFree(w: string) {
    forall k :: 0 <= k < |w| ==> w[k] != '{'
  }

  lemma WordsArePlain()
    ensures |WORDS| == 19
    ensures forall j :: 0 <= j < |WORDS| ==> IsWord(WORDS[j]) && BraceFree(WORDS[j])
  {
    WordsArePlainFrom(0, 10);
    WordsArePlainFrom(10, 19);
  }

  lemma WordsArePlainFrom(lo: nat, hi: nat)
    requires lo <= hi <= |WORDS|
    ensures forall j :: lo <= j < hi ==> IsWord(WORDS[j]) && BraceFree(WORDS[j])
  {
    forall j | lo <= j < hi ensures IsWord(WORDS[j]) && BraceFree(WORDS[j]) {
      var w := WORDS[j];
      assert |w| > 0 && forall k :: 0 <= k < |w| ==> 'A' <= w[k] <= 'z' || w[k] == '.' || w[k] == ',';
      LettersArePlain(w);
    }
  }

  /** Letters and the punctuation `.` and `,` are neither trimmable nor an opening brace. */
  lemma LettersArePlain(w: string)
    requires |w| > 0 && forall k :: 0 <= k < |w| ==> 'A' <= w[k] <= 'z' || w[k] == '.' || w[k] == ','
    ensures IsWord(w) && BraceFree(w)
  {
  }

  /** Tokens separated by single spaces. */
  function Join(ts: seq<string>): string
    decreases |ts|
  {
    if |ts| == 0 then ""
    else if |ts| == 1 then ts[0]
    else ts[0] + " " + Join(ts[1..])
  }

  /** Cuts a string at every single space; empty pieces are kept. */
  function Split(s: string): (r: seq<string>)
    ensures |r| > 0
    decreases |s|
  {
    if |s| == 0 then [""]
    else
      var rest := Split(s[1..]);
      if s[0] == ' ' then [""] + rest else [[s[0]] + rest[0]] + rest[1..]
  }

  /** Rejoining the pieces of a split gives the string back. */
  lemma {:induction false} JoinSplit(s: string)
    ensures Join(Split(s)) == s
    decreases |s|
  {
    if |s| > 0 {
      var rest := Split(s[1..]);
      JoinSplit(s[1..]);
      if s[0] == ' ' {
        assert ([""] + rest)[1..] == rest;
        assert s == [' '] + s[1..];
      } else {
        var r := [[s[0]] + rest[0]] + rest[1..];
        assert r[1..] == rest[1..];
        assert s == [s[0]] + s[1..];
        if |rest| == 1 {
          assert s[1..] == rest[0];
        } else {
          assert s[1..] == rest[0] + " " + Join(rest[1..]);
        }
      }
    }
  }

  /** Splitting tokens that hold no space recovers them. */
  lemma {:induction false} SplitJoin(ts: seq<string>)
    requires |ts| > 0
    requires forall i :: 0 <= i < |ts| ==> ' ' !in ts[i]
    ensures Split(Join(ts)) == ts
    decreases |ts|
  {
    if |ts| == 1 {
      SplitSpaceFree(ts[0], "");
      assert Split("") == [""];
      assert ts[0] + "" == ts[0];
      assert ts == [ts[0]];
    } else {
      var j := Join(ts[1..]);
      SplitJoin(ts[1..]);
      assert (" " + j)[1..] == j;
      assert Split(" " + j) == [""] + ts[1..];
      SplitSpaceFree(ts[0], " " + j);
      assert Join(ts) == ts[0] + (" " + j);
      assert ts[0] + "" == ts[0];
      assert ts == [ts[0]] + ts[1..];
    }
  }

  /** A space-free prefix is glued to the first piece of what follows it. */
  lemma {:induction false} SplitSpaceFree(w: string, tail: string)
    requires ' ' !in w
    ensures Split(w + tail) == [w + Split(tail)[0]] + Split(tail)[1..]
    decreases |w|
  {
    if |w| > 0 {
      assert w[0] in w;
      assert (w + tail)[0] == w[0] != ' ';
      assert (w + tail)[1..] == w[1..] + tail;
      assert forall c :: c in w[1..] ==> c in w;
      SplitSpaceFree(w[1..], tail);
      assert [w[0]] + (w[1..] + Split(tail)[0]) == w + Split(tail)[0];
    } else {
      var r := Split(tail);
      assert w + tail == tail && w + r[0] == r[0];
      assert r == [r[0]] + r[1..];
    }
  }

  /** What the string builder holds: every token followed by one space. */
  function Spaced(ts: seq<string>): string
    decreases |ts|
  {
    if |ts| == 0 then "" else ts[0] + " " + Spaced(ts[1..])
  }

  lemma {:induction false} SpacedIsJoinPlusSpace(ts: seq<string>)
    requires |ts| > 0
    ensures Spaced(ts) == Join(ts) + " "
    decreases |ts|
  {
    if |ts| > 1 {
      SpacedIsJoinPlusSpace(ts[1..]);
    } else {
      assert ts[1..] == [];
    }
  }

  /** The text under construction and the position of the next unread generator output. */
  datatype Built = Built(text: string, next: nat)

  /**
   The length draw of `getRandomTweetContent`: `RANDOM.nextInt(max - min + 1) + min`,
   both operations in 32-bit `int` arithmetic.
   */
  function DrawTweetLength(min: Int32, max: Int32, rng: RandomStream, pos: nat): (r: Result<Draw>)
    ensures r.Ok? <==> (min <= max && max - min < INT_MAX) || max - min + 1 < INT_MIN
    ensures r.Thrown? ==> r.exception == IllegalArgument
    ensures r.Ok? ==> INT_MIN <= r.value.drawn <= INT_MAX && r.value.next == pos + 1
    ensures r.Ok? && min <= max ==> min <= r.value.drawn <= max
    ensures r.Ok? && max < min ==> r.value.drawn >= min || r.value.drawn <= max
  {
    var bound := Wrap32(Wrap32(max - min) + 1);
    WrapAdd(max - min, 1);
    var d :- NextInt(rng, pos, bound);
    WrapBound(min, max, bound, d.drawn);
    Ok(Draw(Wrap32(d.drawn + min), d.next))
  }

  /** Two's complement addition may wrap at each step or only at the end. */
  lemma WrapAdd(x: int, y: int)
    ensures Wrap32(Wrap32(x) + y) == Wrap32(x + y)
  {
  }

  lemma WrapBound(min: Int32, max: Int32, bound: int, d: int)
    requires bound == Wrap32(max - min + 1) && 0 <= d < bound
    ensures min <= max ==> min <= Wrap32(d + min) <= max
    ensures max < min ==> Wrap32(d + min) >= min || Wrap32(d + min) <= max
  {
  }

  /**
   The loop of `constructRandomTweet` from index `i` on, appending to
   `builder`: one filler word per index, and after the word of index `n / 2`
   one keyword.
   */
  function Fill(keywords: seq<string>, n: int, rng: RandomStream, pos: nat, i: int, builder: string): Result<Built>
    decreases n - i
  {
    if i >= n then Ok(Built(builder, pos))
    else
      var w :- NextInt(rng, pos, |WORDS|);
      var withWord := builder + WORDS[w.drawn] + " ";
      if i == n / 2 then
        var k :- NextInt(rng, w.next, |keywords|);
        Fill(keywords, n, rng, k.next, i + 1, withWord + keywords[k.drawn] + " ")
      else
        Fill(keywords, n, rng, w.next, i + 1, withWord)
  }

  /** `constructRandomTweet`: runs the loop on an empty builder and trims the result. */
  function ConstructRandomTweet(keywords: seq<string>, n: Int32, rng: RandomStream, pos: nat): Result<Built>
  {
    var b :- Fill(keywords, n, rng, pos, 0, "");
    Ok(Built(Trim(b.text), b.next))
  }

  /** `getRandomTweetContent`: draws the length, then builds the text. */
  function GetRandomTweetContent(keywords: seq<string>, min: Int32, max: Int32, rng: RandomStream, pos: nat): Result<Built>
  {
    var len :- DrawTweetLength(min, max, rng, pos);
    ConstructRandomTweet(keywords, len.drawn, rng, len.next)
  }

  /** Token position of the keyword in a text built with `n` loop iterations. */
  function KeywordPosition(n: nat): nat {
    n / 2 + 1
  }

  /** The keyword chosen by the draw at offset `n / 2 + 1`. */
  function ChosenKeyword(keywords: seq<string>, n: nat, rng: RandomStream, pos: nat): string
    requires |keywords| > 0
  {
    keywords[rng(pos + KeywordPosition(n)) % |keywords|]
  }

  /** Token `t` of the layout: the draw at offset `t` picks the keyword at `n / 2 + 1` and a filler word elsewhere. */
  function Token(keywords: seq<string>, n: nat, rng: RandomStream, pos: nat, t: nat): string
    requires |keywords| > 0
  {
    if t == KeywordPosition(n) then ChosenKeyword(keywords, n, rng, pos) else WORDS[rng(pos + t) % |WORDS|]
  }

  /** The tokens from position `t` to position `n`. */
  function TokensFrom(keywords: seq<string>, n: nat, rng: RandomStream, pos: nat, t: nat): seq<string>
    requires |keywords| > 0
    decreases n + 1 - t
  {
    if t > n then [] else [Token(keywords, n, rng, pos, t)] + TokensFrom(keywords, n, rng, pos, t + 1)
  }

  /** The `n + 1` tokens the loop lays down, by position. */
  function ExpectedTokens(keywords: seq<string>, n: nat, rng: RandomStream, pos: nat): seq<string>
    requires |keywords| > 0
  {
    TokensFrom(keywords, n, rng, pos, 0)
  }

  lemma {:induction false} TokensFromLength(keywords: seq<string>, n: nat, rng: RandomStream, pos: nat, t: nat)
    requires |keywords| > 0 && t <= n + 1
    ensures |TokensFrom(keywords, n, rng, pos, t)| == n + 1 - t
    decreases n + 1 - t
  {
    if t <= n {
      TokensFromLength(keywords, n, rng, pos, t + 1);
    }
  }

  lemma {:induction false} TokensFromAt(keywords: seq<string>, n: nat, rng: RandomStream, pos: nat, t: nat, j: nat)
    requires |keywords| > 0 && t <= j <= n
    ensures |TokensFrom(keywords, n, rng, pos, t)| == n + 1 - t
    ensures TokensFrom(keywords, n, rng, pos, t)[j - t] == Token(keywords, n, rng, pos, j)
    decreases n + 1 - t
  {
    TokensFromLength(keywords, n, rng, pos, t);
    var first := Token(keywords, n, rng, pos, t);
    var rest := TokensFrom(keywords, n, rng, pos, t + 1);
    assert TokensFrom(keywords, n, rng, pos, t) == [first] + rest;
    if j == t {
      assert ([first] + rest)[0] == first;
    } else {
      TokensFromAt(keywords, n, rng, pos, t + 1, j);
      assert ([first] + rest)[j - t] == rest[j - t - 1];
    }
  }

  /** The token position written at loop index `i`: the keyword shifts every later word by one. */
  function TokenIndex(n: nat, i: nat): nat {
    if i <= n / 2 then i else i + 1
  }

  /** One iteration of the loop at an index other than `n / 2`: one filler word, one draw. */
  lemma FillWordStep(keywords: seq<string>, n: int, rng: RandomStream, pos: nat, i: int, builder: string)
    requires i < n && i != n / 2
    ensures Fill(keywords, n, rng, pos, i, builder)
         == Fill(keywords, n, rng, pos + 1, i + 1, builder + WORDS[rng(pos) % |WORDS|] + " ")
  {
  }

  /** The iteration at index `n / 2`: one filler word and one keyword, two draws. */
  lemma FillKeywordStep(keywords: seq<string>, n: int, rng: RandomStream, pos: nat, i: int, builder: string)
    requires i < n && i == n / 2 && |keywords| > 0
    ensures Fill(keywords, n, rng, pos, i, builder)
         == Fill(keywords, n, rng, pos + 2, i + 1,
                 builder + WORDS[rng(pos) % |WORDS|] + " " + keywords[rng(pos + 1) % |keywords|] + " ")
  {
  }

  /** Token `t` of the expected layout. */
  lemma ExpectedTokenAt(keywords: seq<string>, n: nat, rng: RandomStream, pos: nat, t: nat)
    requires |keywords| > 0 && t <= n
    ensures |ExpectedTokens(keywords, n, rng, pos)| == n + 1
    ensures ExpectedTokens(keywords, n, rng, pos)[t] == Token(keywords, n, rng, pos, t)
  {
    TokensFromAt(keywords, n, rng, pos, 0, t);
  }

  lemma Regroup(a: string, b: string, c: string)
    ensures a + (b + c) == a + b + c
  {
  }

  /** Peeling the first token off the tokens from position `t`. */
  lemma SpacedFrom(keywords: seq<string>, n: nat, rng: RandomStream, pos: nat, t: nat)
    requires |keywords| > 0 && t <= n
    ensures Spaced(TokensFrom(keywords, n, rng, pos, t))
         == Token(keywords, n, rng, pos, t) + " " + Spaced(TokensFrom(keywords, n, rng, pos, t + 1))
  {
    var ts := TokensFrom(keywords, n, rng, pos, t);
    assert ts[0] == Token(keywords, n, rng, pos, t);
    assert ts[1..] == TokensFrom(keywords, n, rng, pos, t + 1);
  }

  /**
   From loop index `i` on, reading the stream at `at`, the loop appends the
   expected tokens from position `p = TokenIndex(n, i)` on, each followed by
   a space: token `p` is drawn at offset `p`.
   */
  lemma {:induction false} FillLaysOutTokens(keywords: seq<string>, n: nat, rng: RandomStream, pos: nat,
                                             i: nat, p: nat, at: nat, builder: string)
    requires n >= 1 && |keywords| > 0 && i <= n
    requires p == TokenIndex(n, i) && at == pos + p
    ensures Fill(keywords, n, rng, at, i, builder)
         == Ok(Built(builder + Spaced(TokensFrom(keywords, n, rng, pos, p)), pos + n + 1))
    decreases n - i
  {
    if i == n {
      assert TokensFrom(keywords, n, rng, pos, p) == [];
      assert builder + Spaced([]) == builder;
    } else if i == n / 2 {
      FillAtKeyword(keywords, n, rng, pos, i, p, at, builder);
    } else {
      FillAtWord(keywords, n, rng, pos, i, p, at, builder);
    }
  }

  /** A filler-word iteration of `FillLaysOutTokens`. */
  lemma {:induction false} FillAtWord(keywords: seq<string>, n: nat, rng: RandomStream, pos: nat,
                                      i: nat, p: nat, at: nat, builder: string)
    requires n >= 1 && |keywords| > 0 && i < n && i != n / 2
    requires p == TokenIndex(n, i) && at == pos + p
    ensures Fill(keywords, n, rng, at, i, builder)
         == Ok(Built(builder + Spaced(TokensFrom(keywords, n, rng, pos, p)), pos + n + 1))
    decreases n - i, 0
  {
    var next := WordIteration(keywords, n, rng, pos, i, p, at, builder);
    FillLaysOutTokens(keywords, n, rng, pos, i + 1, p + 1, at + 1, next);
  }

  /** A filler-word iteration appends the next token of the layout and moves on by one draw. */
  lemma WordIteration(keywords: seq<string>, n: nat, rng: RandomStream, pos: nat,
                      i: nat, p: nat, at: nat, builder: string) returns (next: string)
    requires n >= 1 && |keywords| > 0 && i < n && i != n / 2
    requires p == TokenIndex(n, i) && at == pos + p
    ensures TokenIndex(n, i + 1) == p + 1
    ensures Fill(keywords, n, rng, at, i, builder) == Fill(keywords, n, rng, at + 1, i + 1, next)
    ensures builder + Spaced(TokensFrom(keywords, n, rng, pos, p)) == next + Spaced(TokensFrom(keywords, n, rng, pos, p + 1))
  {
    next := builder + WORDS[rng(at) % |WORDS|] + " ";
    WordIndexStep(n, i);
    WordLayoutStep(keywords, n, rng, pos, p, at, builder);
    FillWordStep(keywords, n, rng, at, i, builder);
  }

  /** A filler-word iteration writes one token position short of the keyword's, or past it. */
  lemma WordIndexStep(n: nat, i: nat)
    requires i < n && i != n / 2
    ensures TokenIndex(n, i) != KeywordPosition(n) && TokenIndex(n, i) <= n
    ensures TokenIndex(n, i + 1) == TokenIndex(n, i) + 1
  {
  }

  /** The keyword iteration writes the word just before the keyword's position, then the keyword. */
  lemma KeywordIndexStep(n: nat, i: nat)
    requires i < n && i == n / 2
    ensures TokenIndex(n, i) + 1 == KeywordPosition(n) <= n
    ensures TokenIndex(n, i + 1) == TokenIndex(n, i) + 2
  {
  }

  /** The keyword iteration of `FillLaysOutTokens`. */
  lemma {:induction false} FillAtKeyword(keywords: seq<string>, n: nat, rng: RandomStream, pos: nat,
                                         i: nat, p: nat, at: nat, builder: string)
    requires n >= 1 && |keywords| > 0 && i < n && i == n / 2
    requires p == TokenIndex(n, i) && at == pos + p
    ensures Fill(keywords, n, rng, at, i, builder)
         == Ok(Built(builder + Spaced(TokensFrom(keywords, n, rng, pos, p)), pos + n + 1))
    decreases n - i, 0
  {
    var next := KeywordIteration(keywords, n, rng, pos, i, p, at, builder);
    FillLaysOutTokens(keywords, n, rng, pos, i + 1, p + 2, at + 2, next);
  }

  /** The keyword iteration appends the next two tokens of the layout and moves on by two draws. */
  lemma KeywordIteration(keywords: seq<string>, n: nat, rng: RandomStream, pos: nat,
                         i: nat, p: nat, at: nat, builder: string) returns (next: string)
    requires n >= 1 && |keywords| > 0 && i < n && i == n / 2
    requires p == TokenIndex(n, i) && at == pos + p
    ensures TokenIndex(n, i + 1) == p + 2
    ensures Fill(keywords, n, rng, at, i, builder) == Fill(keywords, n, rng, at + 2, i + 1, next)
    ensures builder + Spaced(TokensFrom(keywords, n, rng, pos, p)) == next + Spaced(TokensFrom(keywords, n, rng, pos, p + 2))
  {
    next := builder + WORDS[rng(at) % |WORDS|] + " " + keywords[rng(at + 1) % |keywords|] + " ";
    KeywordIndexStep(n, i);
    KeywordLayoutStep(keywords, n, rng, pos, p, at, builder);
    FillKeywordStep(keywords, n, rng, at, i, builder);
  }

  /** Writing the filler word drawn at `at` moves the layout on by one token. */
  lemma WordLayoutStep(keywords: seq<string>, n: nat, rng: RandomStream, pos: nat, p: nat, at: nat, builder: string)
    requires |keywords| > 0 && p != KeywordPosition(n) && p <= n && at == pos + p
    ensures builder + Spaced(TokensFrom(keywords, n, rng, pos, p))
         == builder + WORDS[rng(at) % |WORDS|] + " " + Spaced(TokensFrom(keywords, n, rng, pos, p + 1))
  {
    var word := Token(keywords, n, rng, pos, p);
    assert word == WORDS[rng(at) % |WORDS|];
    SpacedFrom(keywords, n, rng, pos, p);
    AppendToken(builder, word, Spaced(TokensFrom(keywords, n, rng, pos, p + 1)));
  }

  /** Writing the filler word drawn at `at` and the keyword drawn at `at + 1` moves the layout on by two tokens. */
  lemma KeywordLayoutStep(keywords: seq<string>, n: nat, rng: RandomStream, pos: nat, p: nat, at: nat, builder: string)
    requires |keywords| > 0 && p + 1 == KeywordPosition(n) <= n && at == pos + p
    ensures builder + Spaced(TokensFrom(keywords, n, rng, pos, p))
         == builder + WORDS[rng(at) % |WORDS|] + " " + keywords[rng(at + 1) % |keywords|] + " "
            + Spaced(TokensFrom(keywords, n, rng, pos, p + 2))
  {
    var word := Token(keywords, n, rng, pos, p);
    var kw := Token(keywords, n, rng, pos, p + 1);
    KeywordTokens(keywords, n, rng, pos, p, at);
    SpacedFrom(keywords, n, rng, pos, p);
    SpacedFrom(keywords, n, rng, pos, p + 1);
    AppendTwoTokens(builder, word, kw, Spaced(TokensFrom(keywords, n, rng, pos, p + 2)));
  }

  /** The two tokens the keyword iteration writes: the filler word drawn at `p`, then the keyword drawn at `p + 1`. */
  lemma KeywordTokens(keywords: seq<string>, n: nat, rng: RandomStream, pos: nat, p: nat, at: nat)
    requires |keywords| > 0 && p + 1 == KeywordPosition(n) && at == pos + p
    ensures Token(keywords, n, rng, pos, p) == WORDS[rng(at) % |WORDS|]
    ensures Token(keywords, n, rng, pos, p + 1) == keywords[rng(at + 1) % |keywords|]
  {
  }

  /** Appending a spaced token and the rest is appending the token, the space, then the rest. */
  lemma AppendToken(builder: string, t: string, rest: string)
    ensures builder + (t + " " + rest) == builder + t + " " + rest
  {
    Regroup(builder, t + " ", rest);
    Regroup(builder, t, " ");
  }

  lemma AppendTwoTokens(builder: string, t: string, u: string, rest: string)
    ensures builder + (t + " " + (u + " " + rest)) == builder + t + " " + u + " " + rest
  {
    AppendToken(builder, t, u + " " + rest);
    AppendToken(builder + t + " ", u, rest);
  }

  /** With no keywords, the loop throws once it reaches index `n / 2`. */
  lemma {:induction false} FillWithoutKeywordsThrows(n: int, rng: RandomStream, pos: nat, i: int, builder: string)
    requires n >= 1 && 0 <= i <= n / 2
    ensures Fill([], n, rng, pos, i, builder) == Thrown(IllegalArgument)
    decreases n - i
  {
    if i < n / 2 {
      FillWithoutKeywordsThrows(n, rng, pos + 1, i + 1, builder + WORDS[rng(pos) % |WORDS|] + " ");
    }
  }

  /**
   What `constructRandomTweet` returns: the empty text when the loop does not
   run, the exception when a keyword is due and there is none, and otherwise
   the expected tokens joined by single spaces and trimmed, after `n + 1` draws.
   */
  lemma ConstructRandomTweetOutcome(keywords: seq<string>, n: Int32, rng: RandomStream, pos: nat)
    ensures n <= 0 ==> ConstructRandomTweet(keywords, n, rng, pos) == Ok(Built("", pos))
    ensures n >= 1 && |keywords| == 0 ==> ConstructRandomTweet(keywords, n, rng, pos) == Thrown(IllegalArgument)
    ensures n >= 1 && |keywords| > 0 ==>
      ConstructRandomTweet(keywords, n, rng, pos)
        == Ok(Built(Trim(Join(ExpectedTokens(keywords, n, rng, pos)) + " "), pos + n + 1))
  {
    if n <= 0 {
      EmptyLoop(keywords, n, rng, pos);
    } else if |keywords| == 0 {
      FillWithoutKeywordsThrows(n, rng, pos, 0, "");
    } else {
      FillFromStart(keywords, n, rng, pos);
      TrimLoopResult(keywords, n, rng, pos, Join(ExpectedTokens(keywords, n, rng, pos)) + " ", pos + n + 1);
    }
  }

  /** `constructRandomTweet` trims whatever the loop built. */
  lemma TrimLoopResult(keywords: seq<string>, n: Int32, rng: RandomStream, pos: nat, built: string, next: nat)
    requires Fill(keywords, n, rng, pos, 0, "") == Ok(Built(built, next))
    ensures ConstructRandomTweet(keywords, n, rng, pos) == Ok(Built(Trim(built), next))
  {
  }

  lemma EmptyLoop(keywords: seq<string>, n: Int32, rng: RandomStream, pos: nat)
    requires n <= 0
    ensures ConstructRandomTweet(keywords, n, rng, pos) == Ok(Built("", pos))
  {
    assert Fill(keywords, n, rng, pos, 0, "") == Ok(Built("", pos));
    assert TrimStart("") == "";
    assert Trim("") == "";
  }

  /** The whole loop, started on an empty builder, lays down the expected tokens each followed by a space. */
  lemma FillFromStart(keywords: seq<string>, n: nat, rng: RandomStream, pos: nat)
    requires n >= 1 && |keywords| > 0
    ensures Fill(keywords, n, rng, pos, 0, "")
         == Ok(Built(Join(ExpectedTokens(keywords, n, rng, pos)) + " ", pos + n + 1))
  {
    var ts := ExpectedTokens(keywords, n, rng, pos);
    FillLaysOutTokens(keywords, n, rng, pos, 0, 0, pos, "");
    SpacedIsJoinPlusSpace(ts);
    assert "" + Spaced(ts) == Spaced(ts);
  }

  /**
   When the chosen keyword is a word, or is followed by filler words, the trim
   removes only the final space: the text is the expected tokens joined by
   single spaces, and splitting it on spaces yields exactly `n + 1` tokens,
   the keyword at position `n / 2 + 1` and a filler word at every other position.
   */
  lemma ConstructRandomTweetTokens(keywords: seq<string>, n: Int32, rng: RandomStream, pos: nat)
    requires n >= 1 && |keywords| > 0
    requires ' ' !in ChosenKeyword(keywords, n, rng, pos)
    requires n >= 3 || IsWord(ChosenKeyword(keywords, n, rng, pos))
    ensures ConstructRandomTweet(keywords, n, rng, pos).Ok?
    ensures var text := ConstructRandomTweet(keywords, n, rng, pos).value.text;
      && text == Join(ExpectedTokens(keywords, n, rng, pos))
      && |Split(text)| == n + 1
      && Split(text)[KeywordPosition(n)] == ChosenKeyword(keywords, n, rng, pos)
      && forall t :: 0 <= t <= n && t != KeywordPosition(n) ==> Split(text)[t] == WORDS[rng(pos + t) % |WORDS|]
  {
    var ts := ExpectedTokens(keywords, n, rng, pos);
    ExpectedTokensShape(keywords, n, rng, pos);
    TrimmedJoin(ts);
    ConstructRandomTweetOutcome(keywords, n, rng, pos);
  }

  /** The expected tokens hold no space; all but the keyword are filler words, and so is the first. */
  lemma ExpectedTokensShape(keywords: seq<string>, n: nat, rng: RandomStream, pos: nat)
    requires n >= 1 && |keywords| > 0
    requires ' ' !in ChosenKeyword(keywords, n, rng, pos)
    requires n >= 3 || IsWord(ChosenKeyword(keywords, n, rng, pos))
    ensures var ts := ExpectedTokens(keywords, n, rng, pos);
      && |ts| == n + 1
      && (forall t :: 0 <= t <= n ==> ' ' !in ts[t])
      && IsWord(ts[0]) && IsWord(ts[n])
      && ts[KeywordPosition(n)] == ChosenKeyword(keywords, n, rng, pos)
      && forall t :: 0 <= t <= n && t != KeywordPosition(n) ==> ts[t] == WORDS[rng(pos + t) % |WORDS|]
  {
    var ts := ExpectedTokens(keywords, n, rng, pos);
    var kp := KeywordPosition(n);
    ExpectedTokenAt(keywords, n, rng, pos, 0);
    forall t | 0 <= t <= n
      ensures ' ' !in ts[t]
      ensures t != kp ==> IsWord(ts[t]) && ts[t] == WORDS[rng(pos + t) % |WORDS|]
    {
      ExpectedTokenAt(keywords, n, rng, pos, t);
      TokenShape(keywords, n, rng, pos, t);
    }
    ExpectedTokenAt(keywords, n, rng, pos, kp);
  }

  /** A token holds no space; every token but the keyword is a filler word. */
  lemma TokenShape(keywords: seq<string>, n: nat, rng: RandomStream, pos: nat, t: nat)
    requires |keywords| > 0
    requires ' ' !in ChosenKeyword(keywords, n, rng, pos)
    ensures ' ' !in Token(keywords, n, rng, pos, t)
    ensures t != KeywordPosition(n) ==>
      var w := WORDS[rng(pos + t) % |WORDS|];
      Token(keywords, n, rng, pos, t) == w && IsWord(w)
  {
    if t != KeywordPosition(n) {
      var w := WORDS[rng(pos + t) % |WORDS|];
      WordsArePlain();
      WordHasNoSpace(w);
    }
  }

  /**
   Trimming a join of space-free tokens followed by one space removes only
   that space, when the first and last tokens are words; splitting gives the
   tokens back.
   */
  lemma TrimmedJoin(ts: seq<string>)
    requires |ts| > 0 && IsWord(ts[0]) && IsWord(ts[|ts| - 1])
    requires forall i :: 0 <= i < |ts| ==> ' ' !in ts[i]
    ensures Trim(Join(ts) + " ") == Join(ts)
    ensures Split(Join(ts)) == ts
  {
    JoinEnds(ts);
    TrimPadded("", Join(ts), " ");
    assert "" + Join(ts) + " " == Join(ts) + " ";
    SplitJoin(ts);
  }

  lemma WordHasNoSpace(w: string)
    requires IsWord(w)
    ensures ' ' !in w
  {
    forall k | 0 <= k < |w| ensures w[k] != ' ' {
      assert !Trimmable(w[k]);
    }
  }

  /** A join that starts with a word and ends with a word starts and ends with a visible character. */
  lemma JoinEnds(ts: seq<string>)
    requires |ts| > 0 && IsWord(ts[0]) && IsWord(ts[|ts| - 1])
    ensures |Join(ts)| > 0 && !Trimmable(Join(ts)[0]) && !Trimmable(Join(ts)[|Join(ts)| - 1])
  {
    JoinLast(ts);
    assert Join(ts)[0] == ts[0][0];
  }

  /** A join ends with the last character of its last token. */
  lemma {:induction false} JoinLast(ts: seq<string>)
    requires |ts| > 0 && |ts[|ts| - 1]| > 0
    ensures |Join(ts)| > 0 && Join(ts)[|Join(ts)| - 1] == ts[|ts| - 1][|ts[|ts| - 1]| - 1]
    decreases |ts|
  {
    if |ts| > 1 {
      var rest := ts[1..];
      assert rest[|rest| - 1] == ts[|ts| - 1];
      JoinLast(rest);
    }
  }


  /** Once the length is drawn, `getRandomTweetContent` is `constructRandomTweet` on the rest of the stream. */
  lemma AfterLengthDraw(keywords: seq<string>, min: Int32, max: Int32, rng: RandomStream, pos: nat)
    requires DrawTweetLength(min, max, rng, pos).Ok?
    ensures var len := DrawTweetLength(min, max, rng, pos).value;
      GetRandomTweetContent(keywords, min, max, rng, pos) == ConstructRandomTweet(keywords, len.drawn, rng, len.next)
  {
  }

  /**
   `getRandomTweetContent` with a usable configuration: the text splits into
   `n + 1` tokens for some length `n` in [min, max], one of the configured
   keywords at position `n / 2 + 1` and filler words everywhere else.
   */
  lemma GetRandomTweetContentTokens(keywords: seq<string>, min: Int32, max: Int32, rng: RandomStream, pos: nat)
    requires 1 <= min <= max
    requires |keywords| > 0 && forall k :: 0 <= k < |keywords| ==> IsWord(keywords[k])
    ensures GetRandomTweetContent(keywords, min, max, rng, pos).Ok?
    ensures var text := GetRandomTweetContent(keywords, min, max, rng, pos).value.text;
      exists n :: min <= n <= max
        && |Split(text)| == n + 1
        && Split(text)[KeywordPosition(n)] in keywords
        && forall t :: 0 <= t <= n && t != KeywordPosition(n) ==> Split(text)[t] in WORDS
  {
    var len := DrawTweetLength(min, max, rng, pos).value;
    AfterLengthDraw(keywords, min, max, rng, pos);
    var n: Int32 := len.drawn;
    TokensOfLength(keywords, n, rng, len.next);
  }

  lemma TokensOfLength(keywords: seq<string>, n: Int32, rng: RandomStream, pos: nat)
    requires n >= 1
    requires |keywords| > 0 && forall k :: 0 <= k < |keywords| ==> IsWord(keywords[k])
    ensures ConstructRandomTweet(keywords, n, rng, pos).Ok?
    ensures var text := ConstructRandomTweet(keywords, n, rng, pos).value.text;
      && |Split(text)| == n + 1
      && Split(text)[KeywordPosition(n)] in keywords
      && forall t :: 0 <= t <= n && t != KeywordPosition(n) ==> Split(text)[t] in WORDS
  {
    var kw := ChosenKeyword(keywords, n, rng, pos);
    WordHasNoSpace(kw);
    ConstructRandomTweetTokens(keywords, n, rng, pos);
  }

  /** A length range that `nextInt` refuses, or a due keyword with none configured, raises the exception. */
  lemma GetRandomTweetContentThrows(keywords: seq<string>, min: Int32, max: Int32, rng: RandomStream, pos: nat)
    requires (max < min && max - min + 1 >= INT_MIN) || (min <= max && max - min >= INT_MAX)
          || (1 <= min <= max && |keywords| == 0)
    ensures GetRandomTweetContent(keywords, min, max, rng, pos) == Thrown(IllegalArgument)
  {
    if 1 <= min <= max && |keywords| == 0 && max - min < INT_MAX {
      var len := DrawTweetLength(min, max, rng, pos).value;
      AfterLengthDraw(keywords, min, max, rng, pos);
      ConstructRandomTweetOutcome(keywords, len.drawn, rng, len.next);
    }
  }

  /** Lengths that are never positive give the empty text without touching the keywords. */
  lemma GetRandomTweetContentEmpty(keywords: seq<string>, min: Int32, max: Int32, rng: RandomStream, pos: nat)
    requires min <= max <= 0 && max - min < INT_MAX
    ensures GetRandomTweetContent(keywords, min, max, rng, pos) == Ok(Built("", pos + 1))
  {
    var len := DrawTweetLength(min, max, rng, pos).value;
    EmptyAfterDraw(keywords, min, max, rng, pos, len);
  }

  lemma EmptyAfterDraw(keywords: seq<string>, min: Int32, max: Int32, rng: RandomStream, pos: nat, len: Draw)
    requires DrawTweetLength(min, max, rng, pos) == Ok(len)
    requires INT_MIN <= len.drawn <= 0
    ensures GetRandomTweetContent(keywords, min, max, rng, pos) == Ok(Built("", len.next))
  {
    calc {
      GetRandomTweetContent(keywords, min, max, rng, pos);
      { AfterLengthDraw(keywords, min, max, rng, pos); }
      ConstructRandomTweet(keywords, len.drawn, rng, len.next);
      { EmptyLoop(keywords, len.drawn, rng, len.next); }
      Ok(Built("", len.next));
    }
  }
}
