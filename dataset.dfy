/**
 * The intents document and its loading: the structural repair
 * `validate_and_correct_structure` and the flattening of
 * `load_and_clean_dataset` into one training record per pattern, with the
 * raw patterns of the "greeting" intents collected on the side.
 *
 * The JSON document is modelled by its shape: a dictionary (with or without
 * an "intents" entry), a bare list, or any other value. Each intent is a
 * dictionary that the repair updates in place, so it is an object whose
 * three fields may be absent.
 */
module Dataset {
  import opened Wrappers
  import opened Seqs
  import opened Text

  /** The tag given to an intent that has none. */
  const UnknownTag: string := "unknown"

  /** The tag whose patterns are collected as greetings (compared case-sensitively). */
  const GreetingTag: string := "greeting"

  /** The three fields of an intent dictionary; each may be absent. */
  datatype RawIntent = RawIntent(tag: Option<string>, patterns: Option<seq<string>>, responses: Option<seq<string>>)
  {
    predicate IsComplete() { tag.Some? && patterns.Some? && responses.Some? }
  }

  /** An intent whose fields are all present. */
  datatype Intent = Intent(tag: string, patterns: seq<string>, responses: seq<string>)

  /** One training record: a cleaned pattern, the intent's cleaned responses, and its tag. */
  datatype Record = Record(question: string, responses: seq<string>, tag: string)

  /** An intent dictionary of the document. */
  class IntentEntry {
    var tag: Option<string>
    var patterns: Option<seq<string>>
    var responses: Option<seq<string>>

    constructor (tag: Option<string>, patterns: Option<seq<string>>, responses: Option<seq<string>>)
      ensures Fields() == RawIntent(tag, patterns, responses)
    {
      this.tag := tag;
      this.patterns := patterns;
      this.responses := responses;
    }

    function Fields(): RawIntent
      reads this
    {
      RawIntent(tag, patterns, responses)
    }

    function View(): Intent
      reads this
      requires Fields().IsComplete()
    {
      Intent(tag.value, patterns.value, responses.value)
    }

    /** The body of the repair loop (src/Chatbot.py:37-42): fill in each missing key. */
    method Repair()
      modifies this
      ensures Fields() == Repaired(old(Fields()))
    {
      if tag.None? {
        tag := Some(UnknownTag);
      }
      if patterns.None? {
        patterns := Some([]);
      }
      if responses.None? {
        responses := Some([]);
      }
    }
  }

  /** The parsed JSON document: a dictionary, a bare list, or any other value. */
  datatype Document =
    | Dict(intents: Option<seq<IntentEntry>>)
    | List(items: seq<IntentEntry>)
    | Scalar

  // ------------------------------------------------------------------ repair

  /**
   * The per-intent repair (src/Chatbot.py:37-42): absent fields get their
   * defaults, present ones are kept.
   */
  function Repaired(r: RawIntent): (c: RawIntent)
    ensures c.IsComplete()
    ensures r.tag.Some? ==> c.tag == r.tag
    ensures r.patterns.Some? ==> c.patterns == r.patterns
    ensures r.responses.Some? ==> c.responses == r.responses
    ensures r.tag.None? ==> c.tag == Some(UnknownTag)
    ensures r.patterns.None? ==> c.patterns == Some([])
    ensures r.responses.None? ==> c.responses == Some([])
  {
    RawIntent(Some(r.tag.GetOr(UnknownTag)), Some(r.patterns.GetOr([])), Some(r.responses.GetOr([])))
  }

  /**
   * The top-level repair (src/Chatbot.py:31-34): the result is always a
   * dictionary with an "intents" list.
   */
  function Wrap(data: Document): (r: Document)
    ensures r.Dict? && r.intents.Some?
    ensures data.Dict? && data.intents.Some? ==> r == data
    ensures data.List? ==> r.intents.value == data.items
    ensures data.Scalar? || data == Dict(None) ==> r.intents.value == []
  {
    match data
    case Dict(Some(_)) => data
    case List(items) => Dict(Some(items))
    case _ => Dict(Some([]))
  }

  /** The intent list of the repaired document. */
  function Intents(data: Document): seq<IntentEntry> {
    Wrap(data).intents.value
  }

  /** `validate_and_correct_structure` (src/Chatbot.py:30-44). */
  method ValidateAndCorrectStructure(data: Document) returns (corrected: Document)
    modifies Intents(data)
    ensures corrected == Wrap(data)
    ensures forall e :: e in Intents(data) ==> e.Fields() == Repaired(old(e.Fields()))
    ensures forall e :: e in Intents(data) ==> e.Fields().IsComplete()
  {
    if data.Dict? && data.intents.Some? {
      corrected := data;
    } else {
      corrected := Dict(Some(if data.List? then data.items else []));
    }
    var items := corrected.intents.value;
    for i := 0 to |items|
      invariant forall e :: e in items[..i] ==> e.Fields() == Repaired(old(e.Fields()))
      invariant forall e :: e in items && e !in items[..i] ==> e.Fields() == old(e.Fields())
    {
      var item := items[i];
      item.Repair();
      assert items[..i + 1] == items[..i] + [item];
    }
    assert items[..|items|] == items;
  }

  // ------------------------------------------------------------- flattening

  /** `[clean_text(r) for r in texts]`. */
  function CleanAll(texts: seq<string>): seq<string> {
    seq(|texts|, i requires 0 <= i < |texts| => CleanText(texts[i]))
  }

  /** The records of one intent: one per pattern, in pattern order. */
  function IntentRecords(it: Intent): seq<Record> {
    seq(|it.patterns|, j requires 0 <= j < |it.patterns| =>
      Record(CleanText(it.patterns[j]), CleanAll(it.responses), it.tag))
  }

  /** The records of a list of intents, intent after intent. */
  function Flatten(xs: seq<Intent>): seq<Record> {
    if xs == [] then [] else Flatten(xs[..|xs| - 1]) + IntentRecords(xs[|xs| - 1])
  }

  /** The raw patterns of the intents tagged exactly "greeting", in order. */
  function Greetings(xs: seq<Intent>): seq<string> {
    if xs == [] then []
    else Greetings(xs[..|xs| - 1]) + (if xs[|xs| - 1].tag == GreetingTag then xs[|xs| - 1].patterns else [])
  }

  /** The number of patterns over all intents. */
  function PatternCount(xs: seq<Intent>): nat {
    if xs == [] then 0 else PatternCount(xs[..|xs| - 1]) + |xs[|xs| - 1].patterns|
  }

  /** The intents that a list of repaired intent objects holds. */
  function Views(es: seq<IntentEntry>): (vs: seq<Intent>)
    reads es
    requires forall e :: e in es ==> e.Fields().IsComplete()
    ensures |vs| == |es|
    ensures forall i :: 0 <= i < |es| ==> vs[i] == es[i].View()
  {
    if es == [] then [] else Views(es[..|es| - 1]) + [es[|es| - 1].View()]
  }

  /**
   * `load_and_clean_dataset` (src/Chatbot.py:47-70) on an already parsed
   * document: repair it, then emit one record per (intent, pattern) and
   * collect the greeting patterns.
   */
  method LoadAndCleanDataset(data: Document) returns (cleaned: seq<Record>, greetings: seq<string>)
    modifies Intents(data)
    ensures forall e :: e in Intents(data) ==> e.Fields() == Repaired(old(e.Fields()))
    ensures forall e :: e in Intents(data) ==> e.Fields().IsComplete()
    ensures cleaned == Flatten(Views(Intents(data)))
    ensures greetings == Greetings(Views(Intents(data)))
  {
    var corrected := ValidateAndCorrectStructure(data);
    cleaned, greetings := CollectRecords(corrected.intents.value);
  }

  /** The loop over the repaired intents (src/Chatbot.py:56-63). */
  method CollectRecords(items: seq<IntentEntry>) returns (cleaned: seq<Record>, greetings: seq<string>)
    requires forall e :: e in items ==> e.Fields().IsComplete()
    ensures cleaned == Flatten(Views(items))
    ensures greetings == Greetings(Views(items))
  {
    cleaned, greetings := [], [];
    assert items[..0] == [];
    for i := 0 to |items|
      invariant cleaned == Flatten(Views(items[..i]))
      invariant greetings == Greetings(Views(items[..i]))
    {
      var item := items[i];
      assert item in items;
      var tag, patterns, responses := item.tag.value, item.patterns.value, item.responses.value;
      ViewsStep(items, i);
      if tag == GreetingTag {
        greetings := greetings + patterns;
      }
      var records := PatternRecords(tag, patterns, responses);
      cleaned := cleaned + records;
    }
    PrefixStep(items, |items|);
  }

  /** The inner loop: one record per pattern of one intent (src/Chatbot.py:60-63). */
  method PatternRecords(tag: string, patterns: seq<string>, responses: seq<string>) returns (records: seq<Record>)
    ensures records == IntentRecords(Intent(tag, patterns, responses))
  {
    ghost var all := IntentRecords(Intent(tag, patterns, responses));
    records := [];
    for j := 0 to |patterns|
      invariant records == all[..j]
    {
      var question := CleanText(patterns[j]);
      var cleanedResponses := CleanAll(responses);
      PrefixStep(all, j);
      records := records + [Record(question, cleanedResponses, tag)];
    }
    PrefixStep(all, |patterns|);
  }

  /** Flattening and greeting collection over one more repaired intent object. */
  lemma ViewsStep(items: seq<IntentEntry>, i: nat)
    requires i < |items|
    requires forall e :: e in items ==> e.Fields().IsComplete()
    ensures Flatten(Views(items[..i + 1])) == Flatten(Views(items[..i])) + IntentRecords(items[i].View())
    ensures Greetings(Views(items[..i + 1]))
         == Greetings(Views(items[..i])) + (if items[i].tag.value == GreetingTag then items[i].patterns.value else [])
  {
    var vs := Views(items[..i + 1]);
    assert items[..i + 1][..i] == items[..i];
    assert vs == Views(items[..i]) + [items[i].View()];
    assert vs[..|vs| - 1] == Views(items[..i]);
  }

  // ------------------------------------------------------------------ lemmas

  /** Flattening yields exactly one record per pattern. */
  lemma {:induction false} FlattenLength(xs: seq<Intent>)
    ensures |Flatten(xs)| == PatternCount(xs)
  {
    if xs != [] {
      FlattenLength(xs[..|xs| - 1]);
    }
  }

  /** The patterns before intent `i` are those of `xs[..i]`, and adding intent `i` adds its own. */
  lemma {:induction false} PatternCountStep(xs: seq<Intent>, i: nat)
    requires i < |xs|
    ensures PatternCount(xs[..i + 1]) == PatternCount(xs[..i]) + |xs[i].patterns|
    ensures PatternCount(xs[..i + 1]) <= PatternCount(xs)
    decreases |xs|
  {
    assert xs[..i + 1][..i] == xs[..i];
    if i + 1 < |xs| {
      var init := xs[..|xs| - 1];
      PatternCountStep(init, i);
      assert init[..i + 1] == xs[..i + 1];
    } else {
      assert xs[..i + 1] == xs;
    }
  }

  lemma FlattenSnoc(xs: seq<Intent>, m: nat)
    requires m == |xs| - 1
    ensures Flatten(xs) == Flatten(xs[..m]) + IntentRecords(xs[m])
  {
  }

  lemma FlattenOne(x: Intent)
    ensures Flatten([x]) == IntentRecords(x)
  {
    FlattenSnoc([x], 0);
    assert [x][..0] == [];
    AppendNil(IntentRecords(x));
  }

  /** Flattening distributes over concatenation of intent lists. */
  lemma {:induction false} FlattenAppend(xs: seq<Intent>, ys: seq<Intent>)
    ensures Flatten(xs + ys) == Flatten(xs) + Flatten(ys)
    decreases |ys|
  {
    if ys == [] {
      assert xs + ys == xs;
      AppendNil(Flatten(xs));
    } else {
      var m := |ys| - 1;
      var zs := xs + ys;
      assert zs[..|zs| - 1] == xs + ys[..m] && zs[|zs| - 1] == ys[m];
      FlattenSnoc(zs, |zs| - 1);
      FlattenSnoc(ys, m);
      FlattenAppend(xs, ys[..m]);
      AppendAssoc(Flatten(xs), Flatten(ys[..m]), IntentRecords(ys[m]));
    }
  }

  /**
   * Pattern `j` of intent `i` becomes the record at position
   * `PatternCount(xs[..i]) + j`: its cleaned text, the intent's cleaned
   * responses and the intent's tag.
   */
  lemma {:induction false} FlattenAt(xs: seq<Intent>, i: nat, j: nat)
    requires i < |xs| && j < |xs[i].patterns|
    ensures PatternCount(xs[..i]) + j < |Flatten(xs)|
    ensures Flatten(xs)[PatternCount(xs[..i]) + j]
         == Record(CleanText(xs[i].patterns[j]), CleanAll(xs[i].responses), xs[i].tag)
  {
    Around(xs, i);
    FlattenAround(xs, xs[..i], xs[i], xs[i + 1..], j);
    FlattenLength(xs[..i]);
    RecordAt(xs[i], j);
    assert Flatten(xs)[|Flatten(xs[..i])| + j] == IntentRecords(xs[i])[j];
    assert Flatten(xs)[PatternCount(xs[..i]) + j] == IntentRecords(xs[i])[j];
  }

  /** The records of an intent sit right after those of the intents before it. */
  lemma FlattenAround(xs: seq<Intent>, before: seq<Intent>, x: Intent, after: seq<Intent>, j: nat)
    requires xs == before + ([x] + after) && j < |IntentRecords(x)|
    ensures |Flatten(before)| + j < |Flatten(xs)|
    ensures Flatten(xs)[|Flatten(before)| + j] == IntentRecords(x)[j]
  {
    FlattenAppend(before, [x] + after);
    FlattenAppend([x], after);
    FlattenOne(x);
    var rest := IntentRecords(x) + Flatten(after);
    IndexLeft(rest, IntentRecords(x), Flatten(after), j);
    IndexRight(Flatten(xs), Flatten(before), rest, j);
  }

  lemma RecordAt(it: Intent, j: nat)
    requires j < |it.patterns|
    ensures |IntentRecords(it)| == |it.patterns|
    ensures IntentRecords(it)[j] == Record(CleanText(it.patterns[j]), CleanAll(it.responses), it.tag)
  {
  }

  /** Every record comes from one pattern of one intent (the converse of `FlattenAt`). */
  lemma {:induction false} FlattenOrigin(xs: seq<Intent>, k: nat) returns (i: nat, j: nat)
    requires k < |Flatten(xs)|
    ensures i < |xs| && j < |xs[i].patterns| && k == PatternCount(xs[..i]) + j
    ensures Flatten(xs)[k] == Record(CleanText(xs[i].patterns[j]), CleanAll(xs[i].responses), xs[i].tag)
    decreases |xs|
  {
    var m := |xs| - 1;
    var init := xs[..m];
    FlattenLength(init);
    if k < |Flatten(init)| {
      i, j := FlattenOrigin(init, k);
      PrefixOfPrefix(xs, m, i);
    } else {
      i, j := m, k - PatternCount(init);
      assert Flatten(xs) == Flatten(init) + IntentRecords(xs[m]);
      RecordAt(xs[m], 0);
      assert xs[..i] == init;
    }
    FlattenAt(xs, i, j);
  }

  /** Records keep intent-then-pattern order: a later intent's records come after an earlier one's. */
  lemma {:induction false} FlattenOrder(xs: seq<Intent>, i1: nat, j1: nat, i2: nat, j2: nat)
    requires i1 < i2 < |xs| && j1 < |xs[i1].patterns| && j2 < |xs[i2].patterns|
    ensures PatternCount(xs[..i1]) + j1 < PatternCount(xs[..i2]) + j2
    decreases i2 - i1
  {
    PatternCountStep(xs, i1);
    if i1 + 1 < i2 {
      PatternCountMonotone(xs, i1 + 1, i2);
    }
  }

  lemma {:induction false} PatternCountMonotone(xs: seq<Intent>, a: nat, b: nat)
    requires a <= b <= |xs|
    ensures PatternCount(xs[..a]) <= PatternCount(xs[..b])
    decreases b - a
  {
    if a < b {
      PatternCountStep(xs, a);
      PatternCountMonotone(xs, a + 1, b);
    }
  }

  /** The greetings of two lists of intents, one after the other: duplicates and order are kept. */
  lemma {:induction false} GreetingsAppend(xs: seq<Intent>, ys: seq<Intent>)
    ensures Greetings(xs + ys) == Greetings(xs) + Greetings(ys)
    decreases |ys|
  {
    if ys == [] {
      assert xs + ys == xs;
    } else {
      var m := |ys| - 1;
      assert (xs + ys)[..|xs + ys| - 1] == xs + ys[..m];
      GreetingsAppend(xs, ys[..m]);
    }
  }

  /** A text is a greeting exactly when it is a pattern of some intent tagged "greeting". */
  lemma {:induction false} GreetingsMember(xs: seq<Intent>, g: string)
    ensures g in Greetings(xs) <==> exists i :: 0 <= i < |xs| && xs[i].tag == GreetingTag && g in xs[i].patterns
  {
    if xs != [] {
      var m := |xs| - 1;
      var init := xs[..m];
      GreetingsMember(init, g);
      var last := if xs[m].tag == GreetingTag then xs[m].patterns else [];
      assert Greetings(xs) == Greetings(init) + last;
      assert g in Greetings(xs) <==> g in Greetings(init) || g in last;
      if g in Greetings(init) {
        var i :| 0 <= i < |init| && init[i].tag == GreetingTag && g in init[i].patterns;
        assert xs[i] == init[i];
      }
      if exists i :: 0 <= i < |xs| && xs[i].tag == GreetingTag && g in xs[i].patterns {
        var i :| 0 <= i < |xs| && xs[i].tag == GreetingTag && g in xs[i].patterns;
        if i < m {
          assert init[i] == xs[i];
        }
      }
    }
  }
}
