/**
 The raw JSON status built by `getFormattedTweet`: the static template with
 the placeholders `{0}` to `{3}`, filled in by `formatTweetAsJsonWithParams`
 with one `String.replace` per parameter, in index order, over the whole
 string as rewritten so far.
 */
module TweetJson {
  import opened JavaRuntime
  import opened TweetContent

  /** `tweetAsRawJson`, concatenated from the same literals as the source. */
  const TWEET_AS_RAW_JSON: string :=
    "{" +
    "\"created_at\":\"{0}\"," +
    "\"id\":\"{1}\"," +
    "\"text\":\"{2}\"," +
    "\"user\":{\"id\":\"{3}\"}" +
    "}"

  /** The literal text around the placeholders of the template, left to right. */
  const CHUNK0: string := "{\"created_at\":\""
  const CHUNK1: string := "\",\"id\":\""
  const CHUNK2: string := "\",\"text\":\""
  const CHUNK3: string := "\",\"user\":{\"id\":\""
  const CHUNK4: string := "\"}}"

  /** The string `"{" + i + "}"` that parameter `i` replaces. */
  function Placeholder(i: nat): string {
    "{" + DecimalString(i) + "}"
  }

  /** The template shape with `x0` to `x3` in the four slots. */
  function Layout(x0: string, x1: string, x2: string, x3: string): string {
    CHUNK0 + x0 + CHUNK1 + x1 + CHUNK2 + x2 + CHUNK3 + x3 + CHUNK4
  }

  /** The loop of `formatTweetAsJsonWithParams` from index `i` on, applied to the string built so far. */
  function ApplyFrom(s: string, params: seq<string>, i: nat): string
    decreases |params| - i
  {
    if i >= |params| then s
    else ApplyFrom(ReplaceAll(s, Placeholder(i), params[i]), params, i + 1)
  }

  /** `formatTweetAsJsonWithParams`: the loop run on a copy of the template. */
  function FormatTweetAsJsonWithParams(params: seq<string>): string {
    ApplyFrom(TWEET_AS_RAW_JSON, params, 0)
  }

  /**
   What ends up in slot `k`: parameter `k` as rewritten by every later
   parameter, or the placeholder itself when there is no parameter `k`.
   */
  function Slot(params: seq<string>, k: nat): string {
    if k < |params| then ApplyFrom(params[k], params, k + 1) else Placeholder(k)
  }

  /** The template holds each placeholder once, in order, between the fixed chunks. */
  lemma TemplateLayout()
    ensures TWEET_AS_RAW_JSON == Layout(Placeholder(0), Placeholder(1), Placeholder(2), Placeholder(3))
    ensures |TWEET_AS_RAW_JSON| == 64
  {
    SmallPlaceholders();
    TemplateLiteral();
    LayoutHead();
    LayoutMiddle();
    LayoutTail();
  }

  /** The template as one literal, as the compiler folds the constant concatenation. */
  lemma TemplateLiteral()
    ensures TWEET_AS_RAW_JSON == "{\"created_at\":\"{0}\",\"id\":\"{1}\",\"text\":\"{2}\",\"user\":{\"id\":\"{3}\"}}"
  {
    TemplateHead();
    assert "{\"created_at\":\"{0}\",\"id\":\"{1}\",\"text\":\"{2}\"," + "\"user\":{\"id\":\"{3}\"}" == "{\"created_at\":\"{0}\",\"id\":\"{1}\",\"text\":\"{2}\",\"user\":{\"id\":\"{3}\"}";
    assert "{\"created_at\":\"{0}\",\"id\":\"{1}\",\"text\":\"{2}\",\"user\":{\"id\":\"{3}\"}" + "}" == "{\"created_at\":\"{0}\",\"id\":\"{1}\",\"text\":\"{2}\",\"user\":{\"id\":\"{3}\"}}";
  }

  lemma TemplateHead()
    ensures "{" + "\"created_at\":\"{0}\"," + "\"id\":\"{1}\"," + "\"text\":\"{2}\"," == "{\"created_at\":\"{0}\",\"id\":\"{1}\",\"text\":\"{2}\","
  {
    assert "{" + "\"created_at\":\"{0}\"," == "{\"created_at\":\"{0}\",";
    assert "{\"created_at\":\"{0}\"," + "\"id\":\"{1}\"," == "{\"created_at\":\"{0}\",\"id\":\"{1}\",";
    assert "{\"created_at\":\"{0}\",\"id\":\"{1}\"," + "\"text\":\"{2}\"," == "{\"created_at\":\"{0}\",\"id\":\"{1}\",\"text\":\"{2}\",";
  }

  lemma LayoutHead()
    ensures CHUNK0 + "{0}" + CHUNK1 + "{1}" == "{\"created_at\":\"{0}\",\"id\":\"{1}"
  {
    assert "{\"created_at\":\"" + "{0}" == "{\"created_at\":\"{0}";
    assert "{\"created_at\":\"{0}" + CHUNK1 == "{\"created_at\":\"{0}\",\"id\":\"";
    assert "{\"created_at\":\"{0}\",\"id\":\"" + "{1}" == "{\"created_at\":\"{0}\",\"id\":\"{1}";
  }

  lemma LayoutMiddle()
    ensures "{\"created_at\":\"{0}\",\"id\":\"{1}" + CHUNK2 + "{2}" + CHUNK3 == "{\"created_at\":\"{0}\",\"id\":\"{1}\",\"text\":\"{2}\",\"user\":{\"id\":\""
  {
    LayoutText();
    assert "{\"created_at\":\"{0}\",\"id\":\"{1}\",\"text\":\"{2}" + CHUNK3 == "{\"created_at\":\"{0}\",\"id\":\"{1}\",\"text\":\"{2}\",\"user\":{\"id\":\"";
  }

  lemma LayoutText()
    ensures "{\"created_at\":\"{0}\",\"id\":\"{1}" + CHUNK2 + "{2}" == "{\"created_at\":\"{0}\",\"id\":\"{1}\",\"text\":\"{2}"
  {
    assert "{\"created_at\":\"{0}\",\"id\":\"{1}" + CHUNK2 == "{\"created_at\":\"{0}\",\"id\":\"{1}\",\"text\":\"";
    assert "{\"created_at\":\"{0}\",\"id\":\"{1}\",\"text\":\"" + "{2}" == "{\"created_at\":\"{0}\",\"id\":\"{1}\",\"text\":\"{2}";
  }

  lemma LayoutTail()
    ensures "{\"created_at\":\"{0}\",\"id\":\"{1}\",\"text\":\"{2}\",\"user\":{\"id\":\"" + "{3}" + CHUNK4 == "{\"created_at\":\"{0}\",\"id\":\"{1}\",\"text\":\"{2}\",\"user\":{\"id\":\"{3}\"}}"
  {
    assert "{\"created_at\":\"{0}\",\"id\":\"{1}\",\"text\":\"{2}\",\"user\":{\"id\":\"" + "{3}" == "{\"created_at\":\"{0}\",\"id\":\"{1}\",\"text\":\"{2}\",\"user\":{\"id\":\"{3}";
    assert "{\"created_at\":\"{0}\",\"id\":\"{1}\",\"text\":\"{2}\",\"user\":{\"id\":\"{3}" + CHUNK4 == "{\"created_at\":\"{0}\",\"id\":\"{1}\",\"text\":\"{2}\",\"user\":{\"id\":\"{3}\"}}";
  }

  lemma SmallPlaceholders()
    ensures Placeholder(0) == "{0}" && Placeholder(1) == "{1}"
    ensures Placeholder(2) == "{2}" && Placeholder(3) == "{3}"
  {
  }

  /** Every opening brace is followed by a quote. */
  predicate BraceQuoted(s: string) {
    forall k :: 0 <= k < |s| && s[k] == '{' ==> k + 1 < |s| && s[k + 1] == '"'
  }

  lemma ChunksShape()
    ensures BraceQuoted(CHUNK0) && BraceQuoted(CHUNK1) && BraceQuoted(CHUNK2)
    ensures BraceQuoted(CHUNK3) && BraceQuoted(CHUNK4)
    ensures CHUNK0[|CHUNK0| - 1] == '"' && CHUNK4[0] == '"'
    ensures CHUNK1[0] == '"' && CHUNK1[|CHUNK1| - 1] == '"'
    ensures CHUNK2[0] == '"' && CHUNK2[|CHUNK2| - 1] == '"'
    ensures CHUNK3[0] == '"' && CHUNK3[|CHUNK3| - 1] == '"'
  {
  }

  /** A placeholder is an opening brace, the decimal digits of its index, and a closing brace. */
  lemma PlaceholderShape(i: nat)
    ensures var p := Placeholder(i);
      && |p| >= 3 && p[0] == '{' && p[|p| - 1] == '}'
      && p[1..|p| - 1] == DecimalString(i)
      && (forall m :: 1 <= m < |p| - 1 ==> IsDigit(p[m]))
      && '"' !in p
  {
    var p := Placeholder(i);
    var d := DecimalString(i);
    forall m | 1 <= m < |p| - 1 ensures IsDigit(p[m]) {
      assert p[m] == d[m - 1];
    }
    assert p[1..|p| - 1] == d;
  }

  /** No placeholder occurs in a string whose every brace is followed by a quote. */
  lemma NoPlaceholderIn(s: string, i: nat)
    requires BraceQuoted(s)
    ensures !Contains(s, Placeholder(i))
  {
    var p := Placeholder(i);
    PlaceholderShape(i);
    forall j | 0 <= j <= |s| - |p| ensures !OccursAt(s, p, j) {
      assert s[j..j + |p|][0] == s[j] && s[j..j + |p|][1] == s[j + 1];
    }
  }

  /** A placeholder occurs inside another only when the two are the same. */
  lemma PlaceholderMatch(k: nat, i: nat, j: int)
    ensures OccursAt(Placeholder(k), Placeholder(i), j) ==> i == k
  {
    var a, b := Placeholder(k), Placeholder(i);
    if OccursAt(a, b, j) {
      PlaceholderShape(k);
      PlaceholderShape(i);
      assert a[j] == b[0] == '{';
      assert a[|b| - 1] == b[|b| - 1] == '}';
      assert a == a[j..j + |b|] == b;
      DecimalInjective(k, i);
    }
  }

  lemma DistinctPlaceholders(k: nat, i: nat)
    requires i != k
    ensures !Contains(Placeholder(k), Placeholder(i))
  {
    forall j | 0 <= j <= |Placeholder(k)| - |Placeholder(i)|
      ensures !OccursAt(Placeholder(k), Placeholder(i), j)
    {
      PlaceholderMatch(k, i, j);
    }
  }

  /** A fixed chunk followed by anything, or anything followed by a chunk, splits cleanly under replacement. */
  lemma ReplaceAroundQuote(a: string, b: string, i: nat, rep: string)
    requires (|a| > 0 && a[|a| - 1] == '"') || (|b| > 0 && b[0] == '"')
    ensures ReplaceAll(a + b, Placeholder(i), rep) == ReplaceAll(a, Placeholder(i), rep) + ReplaceAll(b, Placeholder(i), rep)
  {
    PlaceholderShape(i);
    ReplaceAllConcat(a, b, Placeholder(i), rep);
  }

  lemma ChunkInert(c: string, i: nat, rep: string)
    requires BraceQuoted(c)
    ensures ReplaceAll(c, Placeholder(i), rep) == c
  {
    PlaceholderShape(i);
    NoPlaceholderIn(c, i);
    ReplaceAllAbsent(c, Placeholder(i), rep);
  }

  /** One `replace` on the template shape acts on the four slots and leaves the chunks alone. */
  lemma LayoutReplace(x0: string, x1: string, x2: string, x3: string, i: nat, rep: string)
    ensures var R := (x: string) => ReplaceAll(x, Placeholder(i), rep);
      ReplaceAll(Layout(x0, x1, x2, x3), Placeholder(i), rep) == Layout(R(x0), R(x1), R(x2), R(x3))
  {
    var pat := Placeholder(i);
    ChunksShape();
    ChunkInert(CHUNK0, i, rep);
    ChunkInert(CHUNK1, i, rep);
    ChunkInert(CHUNK2, i, rep);
    ChunkInert(CHUNK3, i, rep);
    ChunkInert(CHUNK4, i, rep);
    var s1 := CHUNK0 + x0;
    var s2 := s1 + CHUNK1;
    var s3 := s2 + x1;
    var s4 := s3 + CHUNK2;
    var s5 := s4 + x2;
    var s6 := s5 + CHUNK3;
    var s7 := s6 + x3;
    ReplaceAroundQuote(CHUNK0, x0, i, rep);
    ReplaceAroundQuote(s1, CHUNK1, i, rep);
    assert s2[|s2| - 1] == '"';
    ReplaceAroundQuote(s2, x1, i, rep);
    ReplaceAroundQuote(s3, CHUNK2, i, rep);
    assert s4[|s4| - 1] == '"';
    ReplaceAroundQuote(s4, x2, i, rep);
    ReplaceAroundQuote(s5, CHUNK3, i, rep);
    assert s6[|s6| - 1] == '"';
    ReplaceAroundQuote(s6, x3, i, rep);
    ReplaceAroundQuote(s7, CHUNK4, i, rep);
  }

  /** The rest of the loop acts on the four slots independently. */
  lemma {:induction false} ApplyFromLayout(x0: string, x1: string, x2: string, x3: string, params: seq<string>, i: nat)
    ensures ApplyFrom(Layout(x0, x1, x2, x3), params, i)
         == Layout(ApplyFrom(x0, params, i), ApplyFrom(x1, params, i), ApplyFrom(x2, params, i), ApplyFrom(x3, params, i))
    decreases |params| - i
  {
    if i < |params| {
      var pat, rep := Placeholder(i), params[i];
      LayoutReplace(x0, x1, x2, x3, i, rep);
      ApplyFromLayout(ReplaceAll(x0, pat, rep), ReplaceAll(x1, pat, rep),
                      ReplaceAll(x2, pat, rep), ReplaceAll(x3, pat, rep), params, i + 1);
    }
  }

  /** Placeholder `k`, met at index `i <= k`, survives until index `k` and then becomes slot `k`. */
  lemma {:induction false} ApplyFromPlaceholder(params: seq<string>, k: nat, i: nat)
    requires i <= k
    ensures ApplyFrom(Placeholder(k), params, i) == Slot(params, k)
    decreases |params| - i
  {
    if i < |params| {
      PlaceholderShape(i);
      if i < k {
        DistinctPlaceholders(k, i);
        ReplaceAllAbsent(Placeholder(k), Placeholder(i), params[i]);
        ApplyFromPlaceholder(params, k, i + 1);
      } else {
        ReplaceAllWhole(Placeholder(k), params[k]);
      }
    }
  }

  /**
   The whole substitution in closed form: the template with slot `k` holding
   parameter `k` as rewritten by the parameters after it; the chunks are
   never touched, and the template itself stays as it was.
   */
  lemma FormatClosedForm(params: seq<string>)
    ensures FormatTweetAsJsonWithParams(params)
         == Layout(Slot(params, 0), Slot(params, 1), Slot(params, 2), Slot(params, 3))
  {
    TemplateLayout();
    ApplyFromLayout(Placeholder(0), Placeholder(1), Placeholder(2), Placeholder(3), params, 0);
    ApplyFromPlaceholder(params, 0, 0);
    ApplyFromPlaceholder(params, 1, 0);
    ApplyFromPlaceholder(params, 2, 0);
    ApplyFromPlaceholder(params, 3, 0);
  }

  /** A string holding none of the placeholders still to come passes through the loop unchanged. */
  lemma {:induction false} ApplyFromAbsent(s: string, params: seq<string>, m: nat)
    requires forall t :: m <= t < |params| ==> !Contains(s, Placeholder(t))
    ensures ApplyFrom(s, params, m) == s
    decreases |params| - m
  {
    if m < |params| {
      PlaceholderShape(m);
      ReplaceAllAbsent(s, Placeholder(m), params[m]);
      ApplyFromAbsent(s, params, m + 1);
    }
  }

  /** A string without an opening brace holds no placeholder. */
  lemma BraceFreeInert(s: string, params: seq<string>, m: nat)
    requires BraceFree(s)
    ensures ApplyFrom(s, params, m) == s
  {
    forall t | m <= t < |params| ensures !Contains(s, Placeholder(t)) {
      NoPlaceholderIn(s, t);
    }
    ApplyFromAbsent(s, params, m);
  }

  /**
   With four parameters none of which holds a placeholder, each placeholder
   is replaced in place by its parameter, and the length changes by the
   parameters' lengths less the twelve placeholder characters.
   */
  lemma FormatVerbatim(params: seq<string>)
    requires |params| == 4
    requires forall k, t :: 0 <= k < 4 && 0 <= t < 4 ==> !Contains(params[k], Placeholder(t))
    ensures FormatTweetAsJsonWithParams(params) == Layout(params[0], params[1], params[2], params[3])
    ensures |FormatTweetAsJsonWithParams(params)|
         == |TWEET_AS_RAW_JSON| - 12 + |params[0]| + |params[1]| + |params[2]| + |params[3]|
  {
    FormatClosedForm(params);
    ApplyFromAbsent(params[0], params, 1);
    ApplyFromAbsent(params[1], params, 2);
    ApplyFromAbsent(params[2], params, 3);
    ApplyFromAbsent(params[3], params, 4);
    TemplateLayout();
  }

  /** A character that no placeholder contains: neither a brace nor a digit. */
  predicate Inert(c: char) {
    c != '{' && c != '}' && !IsDigit(c)
  }

  lemma InertOutsidePlaceholder(c: char, i: nat)
    requires Inert(c)
    ensures c !in Placeholder(i)
  {
    PlaceholderShape(i);
  }

  /** No placeholder can straddle the seam of `a + b`: one side is empty or an inert character borders it. */
  predicate InertSeam(a: string, b: string) {
    |a| == 0 || |b| == 0 || Inert(a[|a| - 1]) || Inert(b[0])
  }

  /** One `replace` keeps an inert seam inert: an empty side stays empty and an inert border character stays put. */
  lemma ReplaceKeepsSeam(a: string, b: string, i: nat, rep: string)
    requires InertSeam(a, b)
    ensures InertSeam(ReplaceAll(a, Placeholder(i), rep), ReplaceAll(b, Placeholder(i), rep))
  {
    var pat := Placeholder(i);
    PlaceholderShape(i);
    if |a| == 0 {
      assert ReplaceAll(a, pat, rep) == a;
    } else if |b| == 0 {
      assert ReplaceAll(b, pat, rep) == b;
    } else if Inert(a[|a| - 1]) {
      InertOutsidePlaceholder(a[|a| - 1], i);
      ReplaceAllKeepsLast(a, pat, rep);
    } else {
      InertOutsidePlaceholder(b[0], i);
      ReplaceAllKeepsFirst(b, pat, rep);
    }
  }

  /** Across an inert seam, the rest of the loop acts on each side separately. */
  lemma {:induction false} ApplyFromConcat(a: string, b: string, params: seq<string>, m: nat)
    requires InertSeam(a, b)
    ensures ApplyFrom(a + b, params, m) == ApplyFrom(a, params, m) + ApplyFrom(b, params, m)
    decreases |params| - m
  {
    if m < |params| {
      var pat, rep := Placeholder(m), params[m];
      PlaceholderShape(m);
      if |a| > 0 && |b| > 0 {
        if Inert(a[|a| - 1]) {
          InertOutsidePlaceholder(a[|a| - 1], m);
        } else {
          InertOutsidePlaceholder(b[0], m);
        }
      }
      ReplaceAllConcat(a, b, pat, rep);
      ReplaceKeepsSeam(a, b, m, rep);
      ApplyFromConcat(ReplaceAll(a, pat, rep), ReplaceAll(b, pat, rep), params, m + 1);
    }
  }

  /** Text around `x` that meets it at inert characters is rewritten on its own, and so is `x`. */
  lemma ApplyFromAround(a: string, x: string, b: string, params: seq<string>, m: nat)
    requires |a| == 0 || Inert(a[|a| - 1])
    requires |b| == 0 || Inert(b[0])
    ensures ApplyFrom(a + x + b, params, m)
         == ApplyFrom(a, params, m) + ApplyFrom(x, params, m) + ApplyFrom(b, params, m)
  {
    ApplyFromConcat(a + x, b, params, m);
    ApplyFromConcat(a, x, params, m);
  }

  /**
   A placeholder for a later parameter `j`, met in parameter `i` between text
   `a` and `b`, becomes parameter `j` as rewritten from `j + 1` on, while the
   text around it is rewritten separately.
   */
  lemma LaterPlaceholderRewritten(params: seq<string>, i: nat, j: nat, a: string, b: string)
    requires i < j < |params|
    requires |a| == 0 || Inert(a[|a| - 1])
    requires |b| == 0 || Inert(b[0])
    ensures ApplyFrom(a + Placeholder(j) + b, params, i + 1)
         == ApplyFrom(a, params, i + 1) + ApplyFrom(params[j], params, j + 1) + ApplyFrom(b, params, i + 1)
  {
    ApplyFromAround(a, Placeholder(j), b, params, i + 1);
    ApplyFromPlaceholder(params, j, i + 1);
  }

  /** A placeholder for the same or an earlier parameter, met in parameter `i` between text `a` and `b`, survives. */
  lemma EarlierPlaceholderSurvives(params: seq<string>, i: nat, j: nat, a: string, b: string)
    requires j <= i
    requires |a| == 0 || Inert(a[|a| - 1])
    requires |b| == 0 || Inert(b[0])
    ensures ApplyFrom(a + Placeholder(j) + b, params, i + 1)
         == ApplyFrom(a, params, i + 1) + Placeholder(j) + ApplyFrom(b, params, i + 1)
  {
    ApplyFromAround(a, Placeholder(j), b, params, i + 1);
    forall t | i + 1 <= t < |params| ensures !Contains(Placeholder(j), Placeholder(t)) {
      DistinctPlaceholders(j, t);
    }
    ApplyFromAbsent(Placeholder(j), params, i + 1);
  }

  /** The ordering effect on one input: `{1}` in the date is rewritten, `{0}` in the text is not. */
  lemma OrderingExample()
    ensures FormatTweetAsJsonWithParams(["{1}", "7", "{0}", "9"]) == Layout("7", "7", "{0}", "9")
  {
    var params := ["{1}", "7", "{0}", "9"];
    FormatClosedForm(params);
    SmallPlaceholders();
    ApplyFromPlaceholder(params, 1, 1);
    BraceFreeInert("7", params, 2);
    EarlierPlaceholderSurvives(params, 2, 0, "", "");
    BraceFreeInert("", params, 3);
    assert "" + Placeholder(0) + "" == Placeholder(0);
    BraceFreeInert("9", params, 4);
  }

  /** The two random ids: `ThreadLocalRandom.nextLong(Long.MAX_VALUE)`. */
  type RandomId = x: int | 0 <= x < 0x7fff_ffff_ffff_ffff

  /**
   `getFormattedTweet`: the creation time (already formatted), the id, the
   synthesized text and the user id, substituted into the template; the
   clock and the id generator are inputs.
   */
  function GetFormattedTweet(keywords: seq<string>, min: Int32, max: Int32, rng: RandomStream, pos: nat,
                             createdAt: string, id: RandomId, userId: RandomId): Result<Built>
  {
    var content :- GetRandomTweetContent(keywords, min, max, rng, pos);
    var params := [createdAt, DecimalString(id), content.text, DecimalString(userId)];
    Ok(Built(FormatTweetAsJsonWithParams(params), content.next))
  }

  /** Digit strings hold no brace. */
  lemma DecimalBraceFree(n: nat)
    ensures BraceFree(DecimalString(n))
  {
  }

  /**
   The raw status in terms of its inputs: the ids verbatim, the date as
   rewritten by the later parameters, the text with `{3}` rewritten to the
   user id; an exception of the text synthesis propagates.
   */
  lemma GetFormattedTweetLayout(keywords: seq<string>, min: Int32, max: Int32, rng: RandomStream, pos: nat,
                                createdAt: string, id: RandomId, userId: RandomId)
    ensures var content := GetRandomTweetContent(keywords, min, max, rng, pos);
      content.Thrown? ==>
        GetFormattedTweet(keywords, min, max, rng, pos, createdAt, id, userId) == Thrown(content.exception)
    ensures var content := GetRandomTweetContent(keywords, min, max, rng, pos);
      content.Ok? ==>
        var params := [createdAt, DecimalString(id), content.value.text, DecimalString(userId)];
        GetFormattedTweet(keywords, min, max, rng, pos, createdAt, id, userId)
          == Ok(Built(Layout(ApplyFrom(createdAt, params, 1), DecimalString(id),
                             ReplaceAll(content.value.text, Placeholder(3), DecimalString(userId)),
                             DecimalString(userId)),
                      content.value.next))
  {
    var content := GetRandomTweetContent(keywords, min, max, rng, pos);
    if content.Ok? {
      var params := [createdAt, DecimalString(id), content.value.text, DecimalString(userId)];
      FormatClosedForm(params);
      DecimalBraceFree(id);
      DecimalBraceFree(userId);
      BraceFreeInert(params[1], params, 2);
      BraceFreeInert(params[3], params, 4);
      PlaceholderShape(3);
      var rewritten := ReplaceAll(content.value.text, Placeholder(3), DecimalString(userId));
      assert ApplyFrom(rewritten, params, 4) == rewritten;
    }
  }

  /** The loop only ever appends filler words, keywords and spaces. */
  lemma {:induction false} FillBraceFree(keywords: seq<string>, n: int, rng: RandomStream, pos: nat, i: int, builder: string)
    requires BraceFree(builder)
    requires forall k :: 0 <= k < |keywords| ==> BraceFree(keywords[k])
    requires Fill(keywords, n, rng, pos, i, builder).Ok?
    ensures BraceFree(Fill(keywords, n, rng, pos, i, builder).value.text)
    decreases n - i
  {
    if i < n {
      WordsArePlain();
      var word := WORDS[rng(pos) % |WORDS|];
      var withWord := builder + word + " ";
      assert BraceFree(withWord);
      if i == n / 2 {
        var kw := keywords[rng(pos + 1) % |keywords|];
        FillKeywordStep(keywords, n, rng, pos, i, builder);
        assert BraceFree(withWord + kw + " ");
        FillBraceFree(keywords, n, rng, pos + 2, i + 1, withWord + kw + " ");
      } else {
        FillWordStep(keywords, n, rng, pos, i, builder);
        FillBraceFree(keywords, n, rng, pos + 1, i + 1, withWord);
      }
    }
  }

  /** With brace-free keywords the synthesized text holds no brace. */
  lemma ContentBraceFree(keywords: seq<string>, min: Int32, max: Int32, rng: RandomStream, pos: nat)
    requires forall k :: 0 <= k < |keywords| ==> BraceFree(keywords[k])
    requires GetRandomTweetContent(keywords, min, max, rng, pos).Ok?
    ensures BraceFree(GetRandomTweetContent(keywords, min, max, rng, pos).value.text)
  {
    var len := DrawTweetLength(min, max, rng, pos).value;
    AfterLengthDraw(keywords, min, max, rng, pos);
    var built := Fill(keywords, len.drawn, rng, len.next, 0, "");
    FillBraceFree(keywords, len.drawn, rng, len.next, 0, "");
    var t := built.value.text;
    TrimLoopResult(keywords, len.drawn, rng, len.next, t, built.value.next);
    TrimBraceFree(t);
  }

  /** Trimming only removes characters. */
  lemma TrimBraceFree(s: string)
    requires BraceFree(s)
    ensures BraceFree(Trim(s))
  {
    var r := TrimStart(s);
    SliceBraceFree(s, |s| - |r|, |s|);
    SliceBraceFree(r, 0, |TrimEnd(r)|);
  }

  /** Every slice of a brace-free string is brace-free. */
  lemma SliceBraceFree(s: string, i: nat, j: nat)
    requires BraceFree(s) && i <= j <= |s|
    ensures BraceFree(s[i..j])
  {
    assert forall k :: 0 <= k < j - i ==> s[i..j][k] == s[i + k];
  }

  /**
   When neither the date nor any keyword holds a brace, the raw status is the
   template with the date, the ids and the synthesized text in place.
   */
  lemma GetFormattedTweetVerbatim(keywords: seq<string>, min: Int32, max: Int32, rng: RandomStream, pos: nat,
                                  createdAt: string, id: RandomId, userId: RandomId)
    requires BraceFree(createdAt)
    requires forall k :: 0 <= k < |keywords| ==> BraceFree(keywords[k])
    requires GetRandomTweetContent(keywords, min, max, rng, pos).Ok?
    ensures var content := GetRandomTweetContent(keywords, min, max, rng, pos).value;
      GetFormattedTweet(keywords, min, max, rng, pos, createdAt, id, userId)
        == Ok(Built(Layout(createdAt, DecimalString(id), content.text, DecimalString(userId)), content.next))
  {
    var content := GetRandomTweetContent(keywords, min, max, rng, pos).value;
    var params := [createdAt, DecimalString(id), content.text, DecimalString(userId)];
    GetFormattedTweetLayout(keywords, min, max, rng, pos, createdAt, id, userId);
    BraceFreeInert(createdAt, params, 1);
    ContentBraceFree(keywords, min, max, rng, pos);
    PlaceholderShape(3);
    NoPlaceholderIn(content.text, 3);
    ReplaceAllAbsent(content.text, Placeholder(3), DecimalString(userId));
  }
}
