/**
 * Answering a user: `find_best_match` and `chatbot_response`.
 *
 * The TF-IDF vectorisation and cosine similarity are library calls; they are
 * modelled by `similarity`, any function from the cleaned input and a
 * record's question to a score. The random draw of `random.choice` is the
 * parameter `pick`: the element at `pick % |xs|` is returned.
 */
module Matcher {
  import opened Seqs
  import opened Text
  import opened Dataset

  /** The exceptions that escape the source. */
  datatype Error =
    | EmptyMax     // `max` over an empty list raises ValueError
    | EmptyChoice  // `random.choice` on an empty list raises IndexError

  datatype Result<T> = Ok(value: T) | Err(error: Error)

  /** `random.choice(xs)`, the draw supplied as `pick`. */
  function Choice<T>(xs: seq<T>, pick: nat): (r: Result<T>)
    ensures r.Err? <==> xs == []
    ensures r.Err? ==> r.error == EmptyChoice
    ensures r.Ok? ==> r.value in xs
  {
    if xs == [] then Err(EmptyChoice) else Ok(xs[pick % |xs|])
  }

  /** Every element of a non-empty list is the outcome of some draw. */
  lemma ChoiceReachesAll<T>(xs: seq<T>, x: T)
    requires x in xs
    ensures exists pick: nat :: Choice(xs, pick) == Ok(x)
  {
    var k :| 0 <= k < |xs| && xs[k] == x;
    ModOfSmaller(k, |xs|);
    assert Choice(xs, k) == Ok(x);
  }

  lemma ModOfSmaller(k: nat, n: nat)
    requires k < n
    ensures k % n == k
  {
  }

  /** `k` is the first position holding the largest score. */
  predicate IsFirstMax(scores: seq<real>, k: nat) {
    && k < |scores|
    && (forall j :: 0 <= j < |scores| ==> scores[j] <= scores[k])
    && (forall j :: 0 <= j < k ==> scores[j] < scores[k])
  }

  /** There is at most one first maximum. */
  lemma FirstMaxUnique(scores: seq<real>, a: nat, b: nat)
    requires IsFirstMax(scores, a) && b < |scores|
    ensures IsFirstMax(scores, b) ==> b == a
  {
    if a < b {
      assert scores[b] <= scores[a];
    } else if b < a {
      assert scores[b] < scores[a];
    }
  }

  /**
   * Python's `max` with a key: a left-to-right scan that replaces the best
   * element only when a later key is strictly greater.
   */
  function MaxIndex(scores: seq<real>): (k: nat)
    requires scores != []
    ensures IsFirstMax(scores, k)
  {
    if |scores| == 1 then 0
    else
      var b := MaxIndex(scores[..|scores| - 1]);
      if scores[|scores| - 1] > scores[b] then |scores| - 1 else b
  }

  /** The score of every record against the cleaned input. */
  function Similarities(cleanedInput: string, data: seq<Record>, similarity: (string, string) -> real): (s: seq<real>)
    ensures |s| == |data|
    ensures forall i :: 0 <= i < |data| ==> s[i] == similarity(cleanedInput, data[i].question)
  {
    seq(|data|, i requires 0 <= i < |data| => similarity(cleanedInput, data[i].question))
  }

  /**
   * What `find_best_match` returns: a response of the first record with the
   * highest similarity to the cleaned input.
   */
  function BestMatch(userInput: string, data: seq<Record>, similarity: (string, string) -> real, pick: nat): Result<string> {
    if data == [] then Err(EmptyMax)
    else Choice(data[MaxIndex(Similarities(CleanText(userInput), data, similarity))].responses, pick)
  }

  /** `find_best_match` (src/Chatbot.py:95-104). */
  method FindBestMatch(userInput: string, data: seq<Record>, similarity: (string, string) -> real, pick: nat)
    returns (r: Result<string>)
    ensures r == BestMatch(userInput, data, similarity, pick)
  {
    var cleanedInput := CleanText(userInput);
    var similarities: seq<(real, Record)> := [];
    for i := 0 to |data|
      invariant |similarities| == i
      invariant forall k :: 0 <= k < i ==> similarities[k] == (similarity(cleanedInput, data[k].question), data[k])
    {
      var score := similarity(cleanedInput, data[i].question);
      similarities := similarities + [(score, data[i])];
    }
    if similarities == [] {
      return Err(EmptyMax);
    }
    var keys := seq(|similarities|, k requires 0 <= k < |similarities| => similarities[k].0);
    assert keys == Similarities(cleanedInput, data, similarity);
    var best := similarities[MaxIndex(keys)];
    r := Choice(best.1.responses, pick);
  }

  /** `chatbot_response` (src/Chatbot.py:107-110). */
  function ChatbotResponse(userInput: string, data: seq<Record>, greetings: seq<string>,
                           similarity: (string, string) -> real, pick: nat): (r: Result<string>)
    ensures Lower(userInput) in greetings ==> r.Ok? && r.value in greetings
    ensures Lower(userInput) !in greetings ==> r == BestMatch(userInput, data, similarity, pick)
  {
    if Lower(userInput) in greetings then Choice(greetings, pick)
    else BestMatch(userInput, data, similarity, pick)
  }

  // ------------------------------------------------------------------ lemmas

  /**
   * Whatever position holds the first highest score decides the answer: a
   * draw from that record's responses, or `EmptyChoice` when it has none.
   */
  lemma BestMatchPicksFirstMax(userInput: string, data: seq<Record>, similarity: (string, string) -> real,
                               pick: nat, k: nat)
    requires IsFirstMax(Similarities(CleanText(userInput), data, similarity), k)
    ensures BestMatch(userInput, data, similarity, pick) == Choice(data[k].responses, pick)
  {
    var scores := Similarities(CleanText(userInput), data, similarity);
    FirstMaxUnique(scores, MaxIndex(scores), k);
  }

  /** A record that scores no higher than an earlier one is never the one answered from. */
  lemma BestMatchSkipsLaterTies(userInput: string, data: seq<Record>, similarity: (string, string) -> real,
                                a: nat, b: nat)
    requires a < b < |data|
    requires var s := Similarities(CleanText(userInput), data, similarity); s[b] <= s[a]
    ensures !IsFirstMax(Similarities(CleanText(userInput), data, similarity), b)
  {
  }

  /** `find_best_match` fails exactly when there are no records, or the winning record has no responses. */
  lemma BestMatchErrors(userInput: string, data: seq<Record>, similarity: (string, string) -> real, pick: nat)
    ensures var r := BestMatch(userInput, data, similarity, pick);
      && (r == Err(EmptyMax) <==> data == [])
      && (r == Err(EmptyChoice) <==>
            exists k: nat :: IsFirstMax(Similarities(CleanText(userInput), data, similarity), k) && data[k].responses == [])
  {
    var scores := Similarities(CleanText(userInput), data, similarity);
    if data != [] {
      var m := MaxIndex(scores);
      forall k: nat | IsFirstMax(scores, k) ensures k == m {
        FirstMaxUnique(scores, m, k);
      }
      assert IsFirstMax(scores, m);
    }
  }

  /** A greeting stored with an upper-case ASCII letter is never matched: only the input is lower-cased. */
  lemma CapitalisedGreetingNeverMatches(userInput: string, g: string, i: nat)
    requires i < |g| && IsAsciiUpper(g[i])
    ensures Lower(userInput) != g
  {
  }

  /** When every stored greeting has an upper-case letter, every input goes to `find_best_match`. */
  lemma CapitalisedGreetingsUnused(userInput: string, data: seq<Record>, greetings: seq<string>,
                                   similarity: (string, string) -> real, pick: nat)
    requires forall g :: g in greetings ==> exists i :: 0 <= i < |g| && IsAsciiUpper(g[i])
    ensures ChatbotResponse(userInput, data, greetings, similarity, pick) == BestMatch(userInput, data, similarity, pick)
  {
  }

  /** On a greeting, every stored greeting can be the answer. */
  lemma GreetingAnswersAnyGreeting(userInput: string, data: seq<Record>, greetings: seq<string>,
                                   similarity: (string, string) -> real, g: string)
    requires Lower(userInput) in greetings && g in greetings
    ensures exists pick: nat :: ChatbotResponse(userInput, data, greetings, similarity, pick) == Ok(g)
  {
    ChoiceReachesAll(greetings, g);
    var pick: nat :| Choice(greetings, pick) == Ok(g);
    assert ChatbotResponse(userInput, data, greetings, similarity, pick) == Ok(g);
  }

  /** A two-intent dataset: a greeting intent without responses, and a farewell. */
  const TwoIntents: seq<Intent> :=
    [Intent("greeting", ["hi", "hello"], []), Intent("farewell", ["bye"], ["Goodbye!"])]

  lemma FlattenTwo(a: Intent, b: Intent)
    ensures Flatten([a, b]) == IntentRecords(a) + IntentRecords(b)
  {
    PrefixOfPair(a, b);
    var ra, rb := IntentRecords(a), IntentRecords(b);
    assert Flatten([a]) == [] + ra;
    assert [] + ra == ra;
    assert Flatten([a, b]) == Flatten([a]) + rb;
  }

  lemma GreetingsTwo(a: Intent, b: Intent)
    requires a.tag == GreetingTag && b.tag != GreetingTag
    ensures Greetings([a, b]) == a.patterns
  {
    PrefixOfPair(a, b);
    assert Greetings([a]) == [] + a.patterns;
    assert [] + a.patterns == a.patterns;
    assert Greetings([a, b]) == Greetings([a]) + [];
  }

  lemma RecordsOfTwoPatterns(tag: string, p: string, q: string, responses: seq<string>)
    ensures IntentRecords(Intent(tag, [p, q], responses))
         == [Record(CleanText(p), CleanAll(responses), tag), Record(CleanText(q), CleanAll(responses), tag)]
  {
    var rs := IntentRecords(Intent(tag, [p, q], responses));
    PairOf(rs, Record(CleanText(p), CleanAll(responses), tag), Record(CleanText(q), CleanAll(responses), tag));
  }

  lemma RecordsOfOnePattern(tag: string, p: string, response: string)
    ensures IntentRecords(Intent(tag, [p], [response])) == [Record(CleanText(p), [CleanText(response)], tag)]
  {
    var cleaned := CleanAll([response]);
    SingletonOf(cleaned, CleanText(response));
    var rs := IntentRecords(Intent(tag, [p], [response]));
    SingletonOf(rs, Record(CleanText(p), [CleanText(response)], tag));
  }

  lemma NothingToClean()
    ensures CleanAll([]) == []
  {
  }

  lemma GoodbyeLowered()
    ensures Lower("Goodbye!") == "goodbye" + "!"
  {
    assert Lower("Goodbye!")[0] == 'g';
  }

  lemma NoSymbolKept()
    ensures StripSymbols("!") == ""
  {
  }

  lemma GoodbyeStripped()
    ensures StripSymbols("goodbye" + "!") == "goodbye"
  {
    StripSymbolsAppend("goodbye", "!");
    NoSymbolKept();
    assert forall i :: 0 <= i < |"goodbye"| ==> IsKept("goodbye"[i]);
    StripSymbolsOfKept("goodbye");
  }

  lemma GoodbyeSplit()
    ensures Join(Split("goodbye")) == "goodbye"
  {
    assert IsClean("goodbye");
    SplitOfClean("goodbye");
  }

  lemma GoodbyeCleaned()
    ensures CleanText("Goodbye!") == "goodbye"
  {
    GoodbyeLowered();
    GoodbyeStripped();
    GoodbyeSplit();
  }

  lemma ExampleTextsClean()
    ensures CleanText("hi") == "hi" && CleanText("hello") == "hello" && CleanText("bye") == "bye"
  {
    assert IsClean("hi") && IsClean("hello") && IsClean("bye");
    CleanTextFixesClean("hi");
    CleanTextFixesClean("hello");
    CleanTextFixesClean("bye");
  }

  /**
   * Loading the two-intent dataset: three records, the farewell's response
   * cleaned like a pattern, and the greeting patterns collected.
   */
  lemma TwoIntentsFlattened()
    ensures Greetings(TwoIntents) == ["hi", "hello"]
    ensures Flatten(TwoIntents)
         == [Record("hi", [], "greeting"), Record("hello", [], "greeting"), Record("bye", ["goodbye"], "farewell")]
  {
    FlattenTwo(TwoIntents[0], TwoIntents[1]);
    GreetingsTwo(TwoIntents[0], TwoIntents[1]);
    RecordsOfTwoPatterns("greeting", "hi", "hello", []);
    RecordsOfOnePattern("farewell", "bye", "Goodbye!");
    ExampleTextsClean();
    GoodbyeCleaned();
    NothingToClean();
  }

  /** A third record scoring strictly above the first two is the first maximum. */
  lemma LastOfThreeFirstMax(input: string, data: seq<Record>, similarity: (string, string) -> real)
    requires |data| == 3
    requires similarity(input, data[0].question) < similarity(input, data[2].question)
    requires similarity(input, data[1].question) < similarity(input, data[2].question)
    ensures IsFirstMax(Similarities(input, data, similarity), 2)
  {
  }

  /** On the two-intent dataset, "hi" is answered with one of the greeting patterns. */
  lemma TwoIntentGreeting(similarity: (string, string) -> real, pick: nat)
    ensures ChatbotResponse("hi", Flatten(TwoIntents), Greetings(TwoIntents), similarity, pick) in {Ok("hi"), Ok("hello")}
  {
    TwoIntentsFlattened();
    assert Lower("hi") == "hi";
  }

  /**
   * On the two-intent dataset, "bye" is answered, when the similarity ranks
   * the record "bye" strictly first, with the farewell's response as cleaned
   * ("goodbye", not "Goodbye!").
   */
  lemma TwoIntentFarewell(similarity: (string, string) -> real, pick: nat)
    requires similarity("bye", "hi") < similarity("bye", "bye")
    requires similarity("bye", "hello") < similarity("bye", "bye")
    ensures ChatbotResponse("bye", Flatten(TwoIntents), Greetings(TwoIntents), similarity, pick) == Ok("goodbye")
  {
    TwoIntentsFlattened();
    var data := Flatten(TwoIntents);
    assert Lower("bye") == "bye";
    assert "bye" !in Greetings(TwoIntents);
    ExampleTextsClean();
    LastOfThreeFirstMax("bye", data, similarity);
    BestMatchPicksFirstMax("bye", data, similarity, pick, 2);
  }
}
