# Intent chatbot: text normalisation, dataset loading and response selection

This project is a Dafny model of the core of a small retrieval chatbot,
`src/Chatbot.py`. The model covers four parts of that file:

- **`clean_text`** normalises text. It lower-cases the text, deletes every
  character that is not an ASCII letter, an ASCII digit or whitespace,
  splits on whitespace and re-joins the tokens with single spaces
  (module `Text`, `text.dfy`).
- **`validate_and_correct_structure`** repairs the intents document. A
  document that is not a dictionary with an `intents` entry is wrapped as
  `{'intents': data}` when it is a list and as `{'intents': []}`
  otherwise. Every intent dictionary missing `tag`, `patterns` or
  `responses` gets `'unknown'`, `[]` or `[]`, in place (module `Dataset`,
  `dataset.dfy`).
- **`load_and_clean_dataset`** flattens the repaired intents into one
  training record per pattern, in document order. Each record holds the
  cleaned pattern, the intent's cleaned responses and its tag. The raw
  patterns of the intents tagged exactly `"greeting"` are collected on the
  side (module `Dataset`).
- **`find_best_match`** and **`chatbot_response`** answer a user (module
  `Matcher`, `matcher.dfy`). An input whose lower-cased form is one of the
  greetings is answered with a random greeting. Any other input is cleaned
  and compared with every record's question. A random response of the
  first record with the highest similarity is returned.

How the model represents the source:

- The intent dictionaries are updated in place, so an intent is a class,
  `IntentEntry`, whose three fields may be absent (`Option`). The document
  is `Dict`, `List` or `Scalar` (any other JSON value).
- The similarity of two texts (TF-IDF vectors and their cosine) is a
  parameter `similarity` of the matching operations.
- The random draw of `random.choice` is a parameter `pick`. The element at
  `pick % |xs|` is returned.
- The two exceptions the matcher can raise are results
  `Err(EmptyMax)` and `Err(EmptyChoice)`. `max` raises over an empty
  dataset. `random.choice` raises over an empty list of responses.
- `seqs.dfy` (module `Seqs`) holds small facts about sequences used by the
  proofs. `wrappers.dfy` holds `Option`.

Two behaviours of the code may surprise a reader, and the model follows the
code in both:

- **The greeting check is case-sensitive on the stored side.** A reader might
  expect a case-insensitive comparison. Only the user's input is lower-cased
  (src/Chatbot.py:108). The greetings are kept raw (line 59). A greeting
  stored with a capital letter, such as `"Hi"`, therefore never matches any
  input, and such inputs go to the similarity search (`CapitalisedGreetingNeverMatches`, `CapitalisedGreetingsUnused`).
- **Responses are cleaned like patterns** (line 62). A reader might expect
  the responses to be returned as written. With the two-intent example
  dataset, the farewell intent answers `"goodbye"`, not `"Goodbye!"`
  (`TwoIntentFarewell`).

## Model

| member | source | states |
|---|---|---|
| Text.LowerChar | src/Chatbot.py:24 | `lower()` on one character: an ASCII capital becomes the letter 32 code points later, and every other character is unchanged. |
| Text.Lower | src/Chatbot.py:24 | `lower()` keeps the length and maps every character through `LowerChar`. |
| Text.StripSymbols | src/Chatbot.py:25 | The substitution `[^a-zA-Z0-9\s]` -> `''`: keeps, in order, exactly the characters that are ASCII letters, ASCII digits or whitespace (definition; its properties are the lemmas below). |
| Text.Split | src/Chatbot.py:26 | `str.split()` with no separator: skip leading whitespace, take the longest whitespace-free run as a token, repeat (definition). |
| Text.Join | src/Chatbot.py:27 | `' '.join(tokens)`: the tokens with one space between neighbours (definition). |
| Text.CleanText | src/Chatbot.py:23-27 | `clean_text`: lower-case, delete symbols, split, join (definition; its properties are the `CleanText…` lemmas). |
| Text.StripSymbolsAppend | src/Chatbot.py:25 | The symbol deletion works character by character: deleting from `a + b` is deleting from `a` and then from `b`. |
| Text.RemoveSpacesOfStripped | src/Chatbot.py:25 | After the deletion, the non-whitespace characters left are exactly the ASCII letters and digits of the input, in order. |
| Text.StripSymbolsOfKept | src/Chatbot.py:25 | A text made only of letters, digits and whitespace is left unchanged by the deletion. |
| Text.StripSymbolsOfLowered | src/Chatbot.py:24-25 | A text without capitals keeps, after the deletion, only lower-case letters, digits and whitespace. |
| Text.SplitGivesWords | src/Chatbot.py:26 | Every token `split()` returns is non-empty and free of whitespace. |
| Text.SplitGivesCleanWords | src/Chatbot.py:24-26 | Splitting lower-cased, deletion-filtered text gives tokens of lower-case ASCII letters and digits only. |
| Text.ConcatSplit | src/Chatbot.py:26 | `split()` loses only whitespace: its tokens concatenated are the text with its whitespace removed. |
| Text.SplitJoin | src/Chatbot.py:26-27 | Splitting the single-space join of whitespace-free words gives those words back. |
| Text.RemoveSpacesOfJoin | src/Chatbot.py:27 | Joining words with single spaces adds nothing but spaces. |
| Text.JoinIsClean | src/Chatbot.py:27 | Joining clean tokens with single spaces gives a normalised text. |
| Text.SplitOfClean | src/Chatbot.py:26-27 | A normalised text is the join of its own split. |
| Text.CleanTextIsClean | src/Chatbot.py:23-27 | `clean_text` always yields a normalised text: lower-case ASCII letters, digits and single inner spaces only, with no space at either end. |
| Text.CleanTextFixesClean | src/Chatbot.py:23-27 | A normalised text is returned unchanged. |
| Text.CleanTextIdempotent | src/Chatbot.py:23-27 | Cleaning twice is the same as cleaning once. |
| Text.CleanTextImage | src/Chatbot.py:23-27 | A text is an output of `clean_text` if and only if it is normalised. |
| Text.CleanTextKeepsAlnumInOrder | src/Chatbot.py:23-27 | Apart from spaces, the output is exactly the ASCII letters and digits of the lower-cased input, in their original order. |
| Dataset.Repaired | src/Chatbot.py:36-42 | The repaired intent has all three fields. A present field is kept. An absent tag becomes `"unknown"`, and absent patterns or responses become `[]`. |
| Dataset.IntentEntry.Repair | src/Chatbot.py:37-42 | Repairing an intent dictionary in place sets its fields to `Repaired` of their old values. |
| Dataset.Wrap | src/Chatbot.py:31-34 | The result always has an `intents` list. A dictionary with `intents` is returned as is. A list becomes the intents. Any other value, or a dictionary without `intents`, gives `[]`. |
| Dataset.ValidateAndCorrectStructure | src/Chatbot.py:30-44 | Returns the wrapped document. Every intent in it is repaired in place and is complete afterwards. |
| Dataset.PatternRecords | src/Chatbot.py:60-63 | The inner loop appends, for each pattern in order, the record of its cleaned pattern, the intent's cleaned responses and its tag. |
| Dataset.CollectRecords | src/Chatbot.py:56-63 | The outer loop yields the flattening of all intents and the raw greeting patterns. |
| Dataset.LoadAndCleanDataset | src/Chatbot.py:47-70 | Repairs every intent in place. Returns one record per pattern, intent after intent, and the raw patterns of the `"greeting"` intents. |
| Dataset.CleanAll | src/Chatbot.py:62 | The list comprehension cleaning every response of an intent, in order (definition). |
| Dataset.IntentRecords | src/Chatbot.py:60-63 | The records of one intent: one per pattern, in pattern order, each holding the cleaned pattern, the cleaned responses and the tag (definition). |
| Dataset.Flatten | src/Chatbot.py:56-63 | The records of all intents, intent after intent (definition; `PatternRecords` and `CollectRecords` are proved equal to it, and its properties are the `Flatten…` lemmas). |
| Dataset.Greetings | src/Chatbot.py:57-59 | The raw patterns of the intents tagged exactly `"greeting"`, in order (definition; characterised by `GreetingsMember`). |
| Dataset.FlattenLength | src/Chatbot.py:56-63 | There is exactly one record per pattern over all intents. |
| Dataset.FlattenAppend | src/Chatbot.py:56-63 | The records of two consecutive runs of intents are the records of the first followed by those of the second. |
| Dataset.FlattenAt | src/Chatbot.py:56-63 | Pattern `j` of intent `i` produces the record at position (patterns before intent `i`) + `j`, holding its cleaned pattern, its intent's cleaned responses and its tag. |
| Dataset.FlattenOrigin | src/Chatbot.py:56-63 | Every record comes from some pattern `j` of some intent `i`, at exactly that position. No record is invented. |
| Dataset.FlattenOrder | src/Chatbot.py:56-63 | The records of an earlier intent come before those of a later one. |
| Dataset.PatternCountMonotone | src/Chatbot.py:60 | The number of patterns in a prefix of the intents grows with the prefix. |
| Dataset.GreetingsAppend | src/Chatbot.py:57-59 | The greetings of two consecutive runs of intents are concatenated in order. |
| Dataset.GreetingsMember | src/Chatbot.py:57-59 | A text is among the greetings if and only if it is a raw pattern of an intent tagged exactly `"greeting"`. |
| Matcher.Choice | src/Chatbot.py:104 | `random.choice` fails exactly on an empty list, with `EmptyChoice`. Otherwise it returns an element of the list. |
| Matcher.ChoiceReachesAll | src/Chatbot.py:104 | Every element of a non-empty list is returned by some draw. |
| Matcher.FirstMaxUnique | src/Chatbot.py:103 | A list of scores has at most one first maximum. |
| Matcher.MaxIndex | src/Chatbot.py:103 | `max` with a key selects a position whose score is the largest and strictly larger than every earlier one, so ties go to the first. |
| Matcher.Similarities | src/Chatbot.py:98-102 | There is one score per record, and the score at position `i` is the similarity of the cleaned input to record `i`'s question. |
| Matcher.BestMatch | src/Chatbot.py:95-104 | What `find_best_match` returns: `EmptyMax` for an empty dataset, otherwise a draw from the responses of the record at `MaxIndex` of the scores (definition; its properties are the `BestMatch…` lemmas). |
| Matcher.FindBestMatch | src/Chatbot.py:95-104 | The loop's result is `BestMatch`: `EmptyMax` for an empty dataset, otherwise a draw from the responses of the first record with the highest similarity to the cleaned input. |
| Matcher.BestMatchPicksFirstMax | src/Chatbot.py:103-104 | The answer is drawn from the responses of the record at the first maximum. |
| Matcher.BestMatchSkipsLaterTies | src/Chatbot.py:103 | A record scoring no higher than an earlier one is never the best match. |
| Matcher.BestMatchErrors | src/Chatbot.py:103-104 | `EmptyMax` is returned if and only if the dataset is empty. `EmptyChoice` is returned if and only if the best record has no responses. |
| Matcher.ChatbotResponse | src/Chatbot.py:107-110 | If the lower-cased input is a greeting, the answer is one of the greetings. Otherwise it is the best match. |
| Matcher.GreetingAnswersAnyGreeting | src/Chatbot.py:108-109 | For a greeting input, every greeting is the answer for some draw. |
| Matcher.CapitalisedGreetingNeverMatches | src/Chatbot.py:108 | A lower-cased input never equals a stored greeting that contains an ASCII capital. |
| Matcher.CapitalisedGreetingsUnused | src/Chatbot.py:107-110 | If every stored greeting contains a capital, every input is answered by the similarity search. |
| Matcher.GoodbyeCleaned | src/Chatbot.py:23-27 | `clean_text("Goodbye!")` is `"goodbye"`. |
| Matcher.TwoIntentsFlattened | src/Chatbot.py:56-63 | The two-intent example (a greeting intent with `hi` and `hello` and no responses, and a farewell intent with `bye` and `Goodbye!`) loads as greetings `["hi", "hello"]` and three records, the last answering `"goodbye"`. |
| Matcher.LastOfThreeFirstMax | src/Chatbot.py:103 | With three records where the last scores strictly highest, the last is the first maximum. |
| Matcher.TwoIntentGreeting | src/Chatbot.py:108-109 | On the example dataset, `"hi"` is answered with `"hi"` or `"hello"`, whatever the similarity and the draw. |
| Matcher.TwoIntentFarewell | src/Chatbot.py:62 | On the example dataset, `"bye"` is answered with `"goodbye"` when `"bye"` is the most similar question. |

## Left out

- The Streamlit interface (`src/App.py` and the menu, chat and history handlers of `src/Chatbot.py` after line 110) is outside this model. It is user-interface and CSV-logging code.
- File input and output is not modelled. This covers reading the raw JSON (lines 48-49), writing the cleaned dataset (lines 65-68) and the conversation log. The model starts from the parsed document and returns what `load_and_clean_dataset` returns.
- JSON parsing is outside the model. The document is given by its shape. Intent entries that are not dictionaries, field values of the wrong type, and keys other than the three fields are not modelled.
- `ignore_ssl_warning` (lines 17-20) is left out. It only configures SSL and downloads NLTK data.
- Module-level training is left out (lines 73-92): the logistic-regression pipeline, `joblib` saving and the timestamp. Its only effect on the core is the fitted TF-IDF vocabulary. This also leaves out the failure of `fit` on an empty dataset.
- The TF-IDF vectorisation and cosine similarity (lines 97-101) are library calls with floating-point results. They are the parameter `similarity`, so every property holds for any similarity function.
- The randomness of `random.choice` (lines 104 and 109) is the parameter `pick`. Uniformity is not modelled, only which elements can be returned (`ChoiceReachesAll`).
- Text.Lower: lower-cases ASCII `A`-`Z` only. Python's `str.lower()` also maps other capitals, including U+0130 and U+212A, which become ASCII letters that survive the symbol deletion. Non-ASCII lower-casing is not modelled.
- Aliasing between intent dictionaries is not modelled as a separate case. The same dictionary listed twice is repaired twice, and the repair is idempotent, so the outcome is the one `Repaired` states.
