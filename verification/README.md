# Mock tweet synthesis of the twitter-to-kafka service

When mock tweets are enabled, the twitter-to-kafka service does not connect to
Twitter. `MockKafkaStreamRunner` makes up statuses instead:

- `getRandomTweetContent` draws a tweet length from the configured range.
- `constructRandomTweet` writes that many filler words from a fixed
  19-word Latin table. It inserts one configured keyword after the word of
  loop index `length / 2` and trims the result.
- `getFormattedTweet` assembles four parameters: creation time, id, text
  and user id.
- `formatTweetAsJsonWithParams` substitutes those parameters into a raw
  JSON template by calling `String.replace` once per placeholder `{0}` to
  `{3}`, in index order.

The project models this logic as pure functions, in three modules:

- `JavaRuntime` (`java_runtime.dfy`) covers the Java behaviour the code
  depends on:
  - 32-bit `int` wrap-around;
  - `Random.nextInt(bound)` over an explicit stream of generator outputs,
    throwing `IllegalArgumentException` for a bound that is not positive;
  - `String.trim`;
  - `String.replace` with a literal target;
  - `String.valueOf` of a non-negative `long`.
- `TweetContent` (`tweet_content.dfy`) covers the word table, the
  length draw, the word loop, and lemmas about the tokens the loop lays
  down.
- `TweetJson` (`tweet_json.dfy`) covers the template, the substitution
  loop and `getFormattedTweet`.

The random generator is a function from positions to raw outputs. Each
operation takes the position of the next unread output and returns the
position after the last one it used. `nextInt(b)` reduces the raw output
modulo `b`. The two random ids and the formatted creation time are
parameters. Exceptions are results (`Thrown(IllegalArgument)`), not
preconditions, so the failing configurations are modelled and proved to
fail.

The model follows the code where it differs from the natural reading of a
tweet of `tweetLength` words with the keyword in the middle:

- The text has `n + 1` space-separated tokens for a drawn length `n`:
  `n` filler words plus the keyword. The keyword is token `n / 2 + 1`
  (0-based).
- A length of zero, or a negative length, gives the empty text and reads no
  keyword.
- `min` and `max` are not validated. `max - min + 1` is computed in
  32-bit arithmetic:
  - `max < min` throws, unless the difference wraps round to a positive
    bound. In that case the length is at least `min` or at most `max`.
  - A range of `2^31 - 1` or more throws even though `min <= max`.
- Placeholders inside a parameter are rewritten by the later parameters.
  Examples: a keyword `{3}` in the text becomes the user id, and a `{1}`
  in the date becomes the id.

## Model

| member | source | states |
|---|---|---|
| JavaRuntime.NextInt | twitter-to-kafka-service/src/main/java/com/microservices/demo/twitter/to/kafka/service/runner/impl/MockKafkaStreamRunner.java:138 | `nextInt(bound)` succeeds exactly when the bound is positive. It then yields a value in [0, bound) and consumes one generator output; otherwise it throws IllegalArgument |
| JavaRuntime.Wrap32 | twitter-to-kafka-service/src/main/java/com/microservices/demo/twitter/to/kafka/service/runner/impl/MockKafkaStreamRunner.java:132 | the `int` result is congruent to the exact value modulo 2^32, and equal to it when it is in range |
| JavaRuntime.Trim | twitter-to-kafka-service/src/main/java/com/microservices/demo/twitter/to/kafka/service/runner/impl/MockKafkaStreamRunner.java:143 | the result is the input with only characters at or below U+0020 cut from its start and its end, and it starts and ends with a character above U+0020 |
| JavaRuntime.TrimStart | twitter-to-kafka-service/src/main/java/com/microservices/demo/twitter/to/kafka/service/runner/impl/MockKafkaStreamRunner.java:143 | the leading cut removes only characters at or below U+0020 and stops at the first character above it; what is left is a suffix of the input |
| JavaRuntime.TrimEnd | twitter-to-kafka-service/src/main/java/com/microservices/demo/twitter/to/kafka/service/runner/impl/MockKafkaStreamRunner.java:143 | the trailing cut removes only characters at or below U+0020 and stops at the last character above it; what is left is a prefix of the input |
| JavaRuntime.TrimBlank | twitter-to-kafka-service/src/main/java/com/microservices/demo/twitter/to/kafka/service/runner/impl/MockKafkaStreamRunner.java:143 | a string made only of such padding trims to the empty string |
| JavaRuntime.TrimPadded | twitter-to-kafka-service/src/main/java/com/microservices/demo/twitter/to/kafka/service/runner/impl/MockKafkaStreamRunner.java:143 | trimming removes exactly the padding of control and space characters around a core that starts and ends with a visible character |
| JavaRuntime.ReplaceAllAbsent | twitter-to-kafka-service/src/main/java/com/microservices/demo/twitter/to/kafka/service/runner/impl/MockKafkaStreamRunner.java:125 | `replace` leaves a string in which the target does not occur unchanged |
| JavaRuntime.ReplaceAllWhole | twitter-to-kafka-service/src/main/java/com/microservices/demo/twitter/to/kafka/service/runner/impl/MockKafkaStreamRunner.java:125 | `replace` turns the target itself into the replacement |
| JavaRuntime.ReplaceAllConcat | twitter-to-kafka-service/src/main/java/com/microservices/demo/twitter/to/kafka/service/runner/impl/MockKafkaStreamRunner.java:125 | `replace` distributes over a concatenation when no occurrence can straddle the seam |
| JavaRuntime.DecimalString | twitter-to-kafka-service/src/main/java/com/microservices/demo/twitter/to/kafka/service/runner/impl/MockKafkaStreamRunner.java:108 | `String.valueOf` of a non-negative `long` is a non-empty string of decimal digits with no leading zero, except for `0` itself |
| JavaRuntime.ReplaceAllKeepsLast | twitter-to-kafka-service/src/main/java/com/microservices/demo/twitter/to/kafka/service/runner/impl/MockKafkaStreamRunner.java:125 | a last character that is not part of the target is still the last character after `replace` |
| JavaRuntime.ReplaceAllKeepsFirst | twitter-to-kafka-service/src/main/java/com/microservices/demo/twitter/to/kafka/service/runner/impl/MockKafkaStreamRunner.java:125 | a first character that is not part of the target is still the first character after `replace` |
| JavaRuntime.DecimalRoundTrip | twitter-to-kafka-service/src/main/java/com/microservices/demo/twitter/to/kafka/service/runner/impl/MockKafkaStreamRunner.java:108 | the decimal rendering of a non-negative `long` parses back to the same number |
| JavaRuntime.DecimalCanonical | twitter-to-kafka-service/src/main/java/com/microservices/demo/twitter/to/kafka/service/runner/impl/MockKafkaStreamRunner.java:108 | every digit string without a leading zero is the rendering of the number it denotes, so the rendering is the unique canonical one |
| JavaRuntime.DecimalInjective | twitter-to-kafka-service/src/main/java/com/microservices/demo/twitter/to/kafka/service/runner/impl/MockKafkaStreamRunner.java:108 | distinct numbers render to distinct digit strings, so the placeholders `{i}` are pairwise distinct |
| TweetContent.WordsArePlain | twitter-to-kafka-service/src/main/java/com/microservices/demo/twitter/to/kafka/service/runner/impl/MockKafkaStreamRunner.java:36-41 | the table has 19 entries, each non-empty, with no whitespace or control character and no brace |
| TweetContent.JoinSplit | twitter-to-kafka-service/src/main/java/com/microservices/demo/twitter/to/kafka/service/runner/impl/MockKafkaStreamRunner.java:138 | joining the pieces of a split on single spaces restores the string |
| TweetContent.SplitJoin | twitter-to-kafka-service/src/main/java/com/microservices/demo/twitter/to/kafka/service/runner/impl/MockKafkaStreamRunner.java:138 | splitting space-free tokens joined by single spaces gives the tokens back |
| TweetContent.DrawTweetLength | twitter-to-kafka-service/src/main/java/com/microservices/demo/twitter/to/kafka/service/runner/impl/MockKafkaStreamRunner.java:132 | the draw succeeds exactly when the wrapped bound `max - min + 1` is positive. It then lies in [min, max] when min <= max, and at least min or at most max when the range wrapped; a failed draw throws IllegalArgument |
| TweetContent.FillLaysOutTokens | twitter-to-kafka-service/src/main/java/com/microservices/demo/twitter/to/kafka/service/runner/impl/MockKafkaStreamRunner.java:137-142 | from any loop index, the loop appends the remaining tokens, each followed by one space. Token t comes from the draw at offset t: a filler word, except for the keyword at n/2 + 1. The loop finishes after n + 1 draws |
| TweetContent.FillFromStart | twitter-to-kafka-service/src/main/java/com/microservices/demo/twitter/to/kafka/service/runner/impl/MockKafkaStreamRunner.java:137-142 | the whole loop on an empty builder yields the single-space join of the n + 1 expected tokens plus one trailing space, after n + 1 draws |
| TweetContent.ExpectedTokensShape | twitter-to-kafka-service/src/main/java/com/microservices/demo/twitter/to/kafka/service/runner/impl/MockKafkaStreamRunner.java:137-142 | the expected layout has n + 1 space-free tokens: the drawn keyword at n/2 + 1 and, at every other position t, the table word picked by the draw at offset t |
| TweetContent.FillWithoutKeywordsThrows | twitter-to-kafka-service/src/main/java/com/microservices/demo/twitter/to/kafka/service/runner/impl/MockKafkaStreamRunner.java:139-140 | with no keywords, the loop throws when it reaches index n/2 |
| TweetContent.ConstructRandomTweetOutcome | twitter-to-kafka-service/src/main/java/com/microservices/demo/twitter/to/kafka/service/runner/impl/MockKafkaStreamRunner.java:136-144 | `constructRandomTweet` returns the empty text for n <= 0, throws when n >= 1 and there are no keywords, and otherwise returns the trimmed single-space join of the n + 1 expected tokens |
| TweetContent.ConstructRandomTweetTokens | twitter-to-kafka-service/src/main/java/com/microservices/demo/twitter/to/kafka/service/runner/impl/MockKafkaStreamRunner.java:137-143 | for n >= 1 and a space-free keyword that is also free of trimmable characters when n < 3 (the keyword is then the last token, and trim would cut such characters off it), the text is exactly the single-space join of the tokens: n + 1 of them, the drawn keyword at n/2 + 1 and the drawn filler words everywhere else |
| TweetContent.TrimmedJoin | twitter-to-kafka-service/src/main/java/com/microservices/demo/twitter/to/kafka/service/runner/impl/MockKafkaStreamRunner.java:143 | the trim removes only the final space when the first and last tokens are words |
| TweetContent.TokensOfLength | twitter-to-kafka-service/src/main/java/com/microservices/demo/twitter/to/kafka/service/runner/impl/MockKafkaStreamRunner.java:136-144 | for n >= 1 and keywords that are words, the text splits into n + 1 tokens: a configured keyword at n/2 + 1 and table words elsewhere |
| TweetContent.GetRandomTweetContentTokens | twitter-to-kafka-service/src/main/java/com/microservices/demo/twitter/to/kafka/service/runner/impl/MockKafkaStreamRunner.java:130-134 | for 1 <= min <= max and keywords that are words, the text has n + 1 tokens for some n in [min, max]: a configured keyword at n/2 + 1 and table words elsewhere |
| TweetContent.GetRandomTweetContentThrows | twitter-to-kafka-service/src/main/java/com/microservices/demo/twitter/to/kafka/service/runner/impl/MockKafkaStreamRunner.java:130-140 | a range `nextInt` refuses throws. So does a positive range with no keywords |
| TweetContent.GetRandomTweetContentEmpty | twitter-to-kafka-service/src/main/java/com/microservices/demo/twitter/to/kafka/service/runner/impl/MockKafkaStreamRunner.java:130-137 | a range of lengths that are never positive gives the empty text after one draw |
| TweetJson.TemplateLayout | twitter-to-kafka-service/src/main/java/com/microservices/demo/twitter/to/kafka/service/runner/impl/MockKafkaStreamRunner.java:43-48 | the template is the fixed chunks with `{0}` to `{3}` once each, in order, and is 64 characters long |
| TweetJson.DistinctPlaceholders | twitter-to-kafka-service/src/main/java/com/microservices/demo/twitter/to/kafka/service/runner/impl/MockKafkaStreamRunner.java:125 | no placeholder `{i}` occurs inside a different `{k}` |
| TweetJson.NoPlaceholderIn | twitter-to-kafka-service/src/main/java/com/microservices/demo/twitter/to/kafka/service/runner/impl/MockKafkaStreamRunner.java:43-48 | no placeholder occurs in a string whose every opening brace is followed by a quote, which is how the template's own braces appear |
| TweetJson.LayoutReplace | twitter-to-kafka-service/src/main/java/com/microservices/demo/twitter/to/kafka/service/runner/impl/MockKafkaStreamRunner.java:125 | one `replace` on the template shape rewrites the four slots and leaves the fixed chunks alone |
| TweetJson.ApplyFromLayout | twitter-to-kafka-service/src/main/java/com/microservices/demo/twitter/to/kafka/service/runner/impl/MockKafkaStreamRunner.java:123-126 | the rest of the substitution loop acts on the four slots independently |
| TweetJson.ApplyFromPlaceholder | twitter-to-kafka-service/src/main/java/com/microservices/demo/twitter/to/kafka/service/runner/impl/MockKafkaStreamRunner.java:123-126 | placeholder k survives until parameter k and then becomes parameter k, rewritten by the later parameters |
| TweetJson.ApplyFromAbsent | twitter-to-kafka-service/src/main/java/com/microservices/demo/twitter/to/kafka/service/runner/impl/MockKafkaStreamRunner.java:123-126 | a string holding none of the placeholders still to come passes through the loop unchanged |
| TweetJson.FormatClosedForm | twitter-to-kafka-service/src/main/java/com/microservices/demo/twitter/to/kafka/service/runner/impl/MockKafkaStreamRunner.java:119-128 | the output is the template with slot k holding parameter k as rewritten by the parameters after it, or the untouched placeholder when there is no parameter k; the fixed chunks are copied from the template unchanged |
| TweetJson.FormatVerbatim | twitter-to-kafka-service/src/main/java/com/microservices/demo/twitter/to/kafka/service/runner/impl/MockKafkaStreamRunner.java:119-128 | with four parameters containing no placeholder, each placeholder is replaced in place and the length is 64 - 12 + the parameters' lengths |
| TweetJson.ApplyFromConcat | twitter-to-kafka-service/src/main/java/com/microservices/demo/twitter/to/kafka/service/runner/impl/MockKafkaStreamRunner.java:123-126 | when a seam is bordered by a character that is neither a brace nor a digit, or one side is empty, the rest of the loop rewrites each side separately |
| TweetJson.LaterPlaceholderRewritten | twitter-to-kafka-service/src/main/java/com/microservices/demo/twitter/to/kafka/service/runner/impl/MockKafkaStreamRunner.java:123-126 | a `{j}` inside parameter i < j, between text that meets it at characters other than braces and digits, becomes parameter j as rewritten by the parameters after j; the surrounding text is rewritten on its own |
| TweetJson.EarlierPlaceholderSurvives | twitter-to-kafka-service/src/main/java/com/microservices/demo/twitter/to/kafka/service/runner/impl/MockKafkaStreamRunner.java:123-126 | a `{j}` inside parameter i >= j, between such text, survives the rest of the loop; the surrounding text is rewritten on its own |
| TweetJson.OrderingExample | twitter-to-kafka-service/src/main/java/com/microservices/demo/twitter/to/kafka/service/runner/impl/MockKafkaStreamRunner.java:121-127 | for parameters `{1}`, `7`, `{0}`, `9`, the date slot shows 7 and the text slot keeps `{0}` |
| TweetJson.GetFormattedTweetLayout | twitter-to-kafka-service/src/main/java/com/microservices/demo/twitter/to/kafka/service/runner/impl/MockKafkaStreamRunner.java:105-117 | the raw status carries both ids verbatim. Its date is rewritten by the later parameters, and its text has `{3}` replaced by the user id. An exception of the text synthesis propagates |
| TweetJson.FillBraceFree | twitter-to-kafka-service/src/main/java/com/microservices/demo/twitter/to/kafka/service/runner/impl/MockKafkaStreamRunner.java:137-142 | the loop appends only table words, keywords and spaces, so brace-free inputs give a brace-free text |
| TweetJson.ContentBraceFree | twitter-to-kafka-service/src/main/java/com/microservices/demo/twitter/to/kafka/service/runner/impl/MockKafkaStreamRunner.java:130-144 | brace-free keywords give a brace-free text |
| TweetJson.GetFormattedTweetVerbatim | twitter-to-kafka-service/src/main/java/com/microservices/demo/twitter/to/kafka/service/runner/impl/MockKafkaStreamRunner.java:105-117 | with a brace-free date and brace-free keywords, the raw status is the template with the date, the ids and the synthesized text in place |

## Left out

- `start`, `simulateTwitterStream` and `sleep` are left out. They are an executor thread, an endless loop and `Thread.sleep`: concurrency and timing with no state to model.
- `TwitterObjectFactory.createStatus` and the listener's `onStatus` are left out. They are a foreign JSON parser and the downstream sink, and their code is not part of this model.
- `ZonedDateTime.now().format(...)` and the two `ThreadLocalRandom.nextLong(Long.MAX_VALUE)` ids are inputs. The date is an arbitrary string and the ids are numbers in [0, 2^63 - 1).
- TwitterToKafkaServiceConfigData is a property holder. Its keywords, length bounds and sleep time are parameters.
- JavaRuntime.NextInt: the exact algorithm of `java.util.Random` is abstracted to a raw output reduced modulo the bound. Every value in range remains possible, and the statements about the text hold for every generator.
- JavaRuntime.ReplaceAll: does not model `String.replace` with an empty target, which inserts the replacement between characters. The code only uses the targets `{0}` to `{3}`.
- A null keyword or null array is not modelled. Those would give a NullPointerException or the text `null`.
