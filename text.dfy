/**
 * Text normalisation of the chatbot (`clean_text`): lower-case the text,
 * delete every character that is neither an ASCII letter, an ASCII digit
 * nor whitespace, then split on whitespace and re-join with single spaces.
 *
 * Characters are Unicode scalar values. Lower-casing is modelled on ASCII
 * only ('A'..'Z' to 'a'..'z'); whitespace is the set of characters Python
 * treats as whitespace both in the regular-expression class `\s` and in
 * `str.split()`.
 */
module Text {
  import opened Seqs

  // ---------------------------------------------------------------- characters

  predicate IsAsciiUpper(c: char) { 'A' <= c <= 'Z' }
  predicate IsAsciiLower(c: char) { 'a' <= c <= 'z' }
  predicate IsDigit(c: char) { '0' <= c <= '9' }
  predicate IsAsciiAlnum(c: char) { IsAsciiUpper(c) || IsAsciiLower(c) || IsDigit(c) }

  /** Python's whitespace: the characters `\s` matches and `str.split()` splits on. */
  predicate IsSpace(c: char) {
    || ('\U{0009}' <= c <= '\U{000D}') || ('\U{001C}' <= c <= '\U{0020}')
    || c == '\U{0085}' || c == '\U{00A0}' || c == '\U{1680}'
    || ('\U{2000}' <= c <= '\U{200A}') || c == '\U{2028}' || c == '\U{2029}'
    || c == '\U{202F}' || c == '\U{205F}' || c == '\U{3000}'
  }

  /** The characters the substitution `[^a-zA-Z0-9\s]` -> '' leaves in place. */
  predicate IsKept(c: char) { IsAsciiAlnum(c) || IsSpace(c) }

  /** The characters a normalised text may contain. */
  predicate IsCleanChar(c: char) { IsAsciiLower(c) || IsDigit(c) || c == ' ' }

  function LowerChar(c: char): (d: char)
    ensures !IsAsciiUpper(d)
    ensures IsAsciiUpper(c) ==> IsAsciiLower(d) && d as int == c as int + 32
    ensures !IsAsciiUpper(c) ==> d == c
  {
    if IsAsciiUpper(c) then (c as int + 32) as char else c
  }

  // ------------------------------------------------------------ string helpers

  /** `str.lower()`, on ASCII letters. */
  function Lower(s: string): (r: string)
    ensures |r| == |s|
    ensures forall i :: 0 <= i < |s| ==> r[i] == LowerChar(s[i])
  {
    seq(|s|, i requires 0 <= i < |s| => LowerChar(s[i]))
  }

  /** `re.sub(r'[^a-zA-Z0-9\s]', '', s)`: the kept characters of `s`, in order. */
  function StripSymbols(s: string): string {
    if s == [] then [] else (if IsKept(s[0]) then [s[0]] else []) + StripSymbols(s[1..])
  }

  /** The characters of `s` other than whitespace, in order. */
  function RemoveSpaces(s: string): string {
    if s == [] then [] else (if IsSpace(s[0]) then [] else [s[0]]) + RemoveSpaces(s[1..])
  }

  /** The ASCII letters and digits of `s`, in order. */
  function AlnumOnly(s: string): string {
    if s == [] then [] else (if IsAsciiAlnum(s[0]) then [s[0]] else []) + AlnumOnly(s[1..])
  }

  /** `s` with its leading whitespace removed. */
  function DropSpaces(s: string): (r: string)
    ensures |r| <= |s| && r == s[|s| - |r|..]
    ensures r == [] || !IsSpace(r[0])
  {
    if s != [] && IsSpace(s[0]) then DropSpaces(s[1..]) else s
  }

  /** The length of the longest prefix of `s` without whitespace. */
  function WordLength(s: string): (n: nat)
    ensures n <= |s|
    ensures forall i :: 0 <= i < n ==> !IsSpace(s[i])
    ensures n < |s| ==> IsSpace(s[n])
  {
    if s == [] || IsSpace(s[0]) then 0 else 1 + WordLength(s[1..])
  }

  /** A word: non-empty and free of whitespace. */
  predicate IsWord(w: string) {
    w != [] && forall i :: 0 <= i < |w| ==> !IsSpace(w[i])
  }

  predicate AllWords(words: seq<string>) {
    words == [] || (IsWord(words[0]) && AllWords(words[1..]))
  }

  predicate AllCleanWords(words: seq<string>) {
    words == [] || (IsCleanWord(words[0]) && AllCleanWords(words[1..]))
  }

  /** A word of a normalised text: non-empty, lower-case ASCII letters and digits only. */
  predicate IsCleanWord(w: string) {
    w != [] && forall i :: 0 <= i < |w| ==> IsAsciiLower(w[i]) || IsDigit(w[i])
  }

  /** What the substitution leaves of a lower-cased text. */
  predicate IsLoweredKept(c: char) { IsAsciiLower(c) || IsDigit(c) || IsSpace(c) }

  /**
   * `str.split()` without arguments: the maximal runs of non-whitespace
   * characters, in order.
   */
  function Split(s: string): seq<string>
    decreases |s|
  {
    var t := DropSpaces(s);
    if t == [] then []
    else
      var n := WordLength(t);
      [t[..n]] + Split(t[n..])
  }

  /** `' '.join(words)`. */
  function Join(words: seq<string>): string {
    if words == [] then ""
    else if |words| == 1 then words[0]
    else words[0] + " " + Join(words[1..])
  }

  /** The concatenation of `words`. */
  function Concat(words: seq<string>): string {
    if words == [] then "" else words[0] + Concat(words[1..])
  }

  // ------------------------------------------------------------------ clean_text

  /** `clean_text` (src/Chatbot.py:23-27). */
  function CleanText(s: string): string {
    Join(Split(StripSymbols(Lower(s))))
  }

  /**
   * A normalised text: lower-case ASCII letters, digits and spaces only,
   * no space at either end and never two spaces in a row.
   */
  predicate IsClean(t: string) {
    && (forall i :: 0 <= i < |t| ==> IsCleanChar(t[i]))
    && (t != [] ==> t[0] != ' ' && t[|t| - 1] != ' ')
    && (forall i :: 0 <= i < |t| - 1 ==> !(t[i] == ' ' && t[i + 1] == ' '))
  }

  // ---------------------------------------------------------------- lemmas

  lemma {:induction false} RemoveSpacesAppend(a: string, b: string)
    ensures RemoveSpaces(a + b) == RemoveSpaces(a) + RemoveSpaces(b)
  {
    if a == [] {
      assert a + b == b;
    } else {
      assert (a + b)[0] == a[0] && (a + b)[1..] == a[1..] + b;
      RemoveSpacesAppend(a[1..], b);
      var head := if IsSpace(a[0]) then [] else [a[0]];
      assert RemoveSpaces(a + b) == head + (RemoveSpaces(a[1..]) + RemoveSpaces(b));
      assert RemoveSpaces(a) == head + RemoveSpaces(a[1..]);
    }
  }

  lemma {:induction false} StripSymbolsAppend(a: string, b: string)
    ensures StripSymbols(a + b) == StripSymbols(a) + StripSymbols(b)
  {
    if a == [] {
      assert a + b == b;
    } else {
      assert (a + b)[0] == a[0] && (a + b)[1..] == a[1..] + b;
      StripSymbolsAppend(a[1..], b);
      var head := if IsKept(a[0]) then [a[0]] else [];
      assert StripSymbols(a + b) == head + (StripSymbols(a[1..]) + StripSymbols(b));
      assert StripSymbols(a) == head + StripSymbols(a[1..]);
    }
  }

  lemma {:induction false} RemoveSpacesOfWord(w: string)
    requires forall i :: 0 <= i < |w| ==> !IsSpace(w[i])
    ensures RemoveSpaces(w) == w
  {
    if w != [] {
      RemoveSpacesOfWord(w[1..]);
    }
  }

  lemma {:induction false} RemoveSpacesOfBlank(s: string)
    requires forall i :: 0 <= i < |s| ==> IsSpace(s[i])
    ensures RemoveSpaces(s) == []
  {
    if s != [] {
      RemoveSpacesOfBlank(s[1..]);
    }
  }

  /** Removing whitespace after the substitution leaves just the letters and digits. */
  lemma {:induction false} RemoveSpacesOfStripped(s: string)
    ensures RemoveSpaces(StripSymbols(s)) == AlnumOnly(s)
  {
    if s != [] {
      RemoveSpacesOfStripped(s[1..]);
      var head := if IsKept(s[0]) then [s[0]] else [];
      RemoveSpacesAppend(head, StripSymbols(s[1..]));
    }
  }

  /** The substitution leaves a text made of kept characters only unchanged. */
  lemma {:induction false} StripSymbolsOfKept(s: string)
    requires forall i :: 0 <= i < |s| ==> IsKept(s[i])
    ensures StripSymbols(s) == s
  {
    if s != [] {
      StripSymbolsOfKept(s[1..]);
    }
  }

  /** Every piece `str.split()` returns is a word. */
  lemma {:induction false} SplitGivesWords(s: string)
    ensures AllWords(Split(s))
    decreases |s|
  {
    var t := DropSpaces(s);
    if t != [] {
      var n := WordLength(t);
      SplitStep(s);
      SplitGivesWords(t[n..]);
      ConsParts(t[..n], Split(t[n..]));
      LeadingWord(t);
    }
  }

  predicate AllLoweredKept(s: string) {
    forall i :: 0 <= i < |s| ==> IsLoweredKept(s[i])
  }

  lemma AllLoweredKeptSuffix(s: string, a: nat)
    requires AllLoweredKept(s) && a <= |s|
    ensures AllLoweredKept(s[a..])
  {
    forall i | 0 <= i < |s| - a ensures IsLoweredKept(s[a..][i]) {
      assert s[a..][i] == s[a + i];
    }
  }

  lemma AllLoweredKeptPrefix(s: string, b: nat)
    requires AllLoweredKept(s) && b <= |s|
    ensures AllLoweredKept(s[..b])
  {
    forall i | 0 <= i < b ensures IsLoweredKept(s[..b][i]) {
      assert s[..b][i] == s[i];
    }
  }

  /** One step of `str.split()`: skip whitespace, take the word that follows. */
  lemma SplitStep(s: string)
    requires DropSpaces(s) != []
    ensures var t := DropSpaces(s); var n := WordLength(t);
      && 0 < n
      && Split(s) == [t[..n]] + Split(t[n..])
  {
  }

  lemma CleanWordOf(w: string)
    requires IsWord(w) && AllLoweredKept(w)
    ensures IsCleanWord(w)
  {
  }

  /** The word `str.split()` takes off the front of a text that does not start with whitespace. */
  lemma LeadingWord(t: string)
    requires t != [] && !IsSpace(t[0])
    ensures IsWord(t[..WordLength(t)])
  {
    var n := WordLength(t);
    forall i | 0 <= i < n ensures !IsSpace(t[..n][i]) {
      assert t[..n][i] == t[i];
    }
  }

  /** Splitting a lower-cased, stripped text gives words of letters and digits. */
  lemma {:induction false} SplitGivesCleanWords(s: string)
    requires AllLoweredKept(s)
    ensures AllCleanWords(Split(s))
    decreases |s|
  {
    var t := DropSpaces(s);
    if t != [] {
      var n := WordLength(t);
      SplitStep(s);
      AllLoweredKeptSuffix(s, |s| - |t|);
      AllLoweredKeptSuffix(t, n);
      AllLoweredKeptPrefix(t, n);
      SplitGivesCleanWords(t[n..]);
      LeadingWord(t);
      CleanWordOf(t[..n]);
      ConsParts(t[..n], Split(t[n..]));
    }
  }

  /** After ASCII lower-casing, the substitution leaves lower-case letters, digits and whitespace. */
  lemma {:induction false} StripSymbolsOfLowered(s: string)
    requires forall i :: 0 <= i < |s| ==> !IsAsciiUpper(s[i])
    ensures AllLoweredKept(StripSymbols(s))
  {
    if s != [] {
      StripSymbolsOfLowered(s[1..]);
    }
  }

  lemma {:induction false} WordLengthOfWord(w: string, rest: string)
    requires forall i :: 0 <= i < |w| ==> !IsSpace(w[i])
    requires rest == [] || IsSpace(rest[0])
    ensures WordLength(w + rest) == |w|
  {
    if w != [] {
      assert (w + rest)[0] == w[0] && (w + rest)[1..] == w[1..] + rest;
      WordLengthOfWord(w[1..], rest);
    } else {
      assert w + rest == rest;
    }
  }

  /** A single-space join of words starts with the first word. */
  lemma JoinStart(words: seq<string>)
    requires words != [] && words[0] != []
    ensures Join(words) != [] && Join(words)[0] == words[0][0]
  {
  }

  /** A word followed by whitespace (or nothing) is split off as it is. */
  lemma SplitWordThen(w: string, rest: string)
    requires IsWord(w)
    requires rest == [] || IsSpace(rest[0])
    ensures Split(w + rest) == [w] + Split(rest)
  {
    var s := w + rest;
    assert s[0] == w[0];
    assert DropSpaces(s) == s;
    WordLengthOfWord(w, rest);
    assert s[..|w|] == w;
    assert s[|w|..] == rest;
  }

  /** A single leading space makes no difference to `str.split()`. */
  lemma SplitAfterSpace(rest: string)
    ensures Split(" " + rest) == Split(rest)
  {
    assert (" " + rest)[1..] == rest;
    assert DropSpaces(" " + rest) == DropSpaces(rest);
  }

  /** Splitting a single-space join of words gives the words back. */
  lemma {:induction false} SplitJoin(words: seq<string>)
    requires AllWords(words)
    ensures Split(Join(words)) == words
  {
    if words != [] {
      var w := words[0];
      assert IsWord(w);
      if |words| == 1 {
        SplitWordThen(w, "");
        assert w + "" == w;
      } else {
        var rest := Join(words[1..]);
        assert Join(words) == w + (" " + rest);
        SplitWordThen(w, " " + rest);
        SplitAfterSpace(rest);
        SplitJoin(words[1..]);
        HeadTail(words);
      }
    }
  }

  /** The whitespace `DropSpaces` skips is whitespace. */
  lemma {:induction false} DropSpacesSkipsBlank(s: string)
    ensures forall i :: 0 <= i < |s| - |DropSpaces(s)| ==> IsSpace(s[i])
  {
    if s != [] && IsSpace(s[0]) {
      DropSpacesSkipsBlank(s[1..]);
      forall i | 1 <= i < |s| - |DropSpaces(s)| ensures IsSpace(s[i]) {
        assert s[i] == s[1..][i - 1];
      }
    }
  }

  /** The word `str.split()` takes off the front contains no whitespace. */
  lemma {:induction false} RemoveSpacesOfLeadingWord(t: string)
    ensures RemoveSpaces(t[..WordLength(t)]) == t[..WordLength(t)]
  {
    var n := WordLength(t);
    if n > 0 {
      RemoveSpacesOfLeadingWord(t[1..]);
      assert t[..n] == [t[0]] + t[1..][..n - 1];
      RemoveSpacesAppend([t[0]], t[1..][..n - 1]);
    }
  }

  /** Splitting throws away exactly the whitespace. */
  lemma {:induction false} ConcatSplit(s: string)
    ensures Concat(Split(s)) == RemoveSpaces(s)
    decreases |s|
  {
    var t := DropSpaces(s);
    var lead := s[..|s| - |t|];
    Reassemble(s, |s| - |t|);
    DropSpacesSkipsBlank(s);
    RemoveSpacesAppend(lead, t);
    RemoveSpacesOfBlank(lead);
    if t != [] {
      var n := WordLength(t);
      SplitStep(s);
      Reassemble(t, n);
      RemoveSpacesAppend(t[..n], t[n..]);
      RemoveSpacesOfLeadingWord(t);
      ConcatSplit(t[n..]);
      var ws := Split(s);
      assert ws[0] == t[..n] && ws[1..] == Split(t[n..]);
    } else {
      assert Split(s) == [];
    }
  }

  /** Removing the spaces of a single-space join of words gives their concatenation. */
  lemma {:induction false} RemoveSpacesOfJoin(words: seq<string>)
    requires AllWords(words)
    ensures RemoveSpaces(Join(words)) == Concat(words)
  {
    if words != [] {
      var w := words[0];
      RemoveSpacesOfWord(w);
      AppendNil(w);
      if |words| > 1 {
        var rest := Join(words[1..]);
        RemoveSpacesOfJoin(words[1..]);
        RemoveSpacesAppend(w + " ", rest);
        RemoveSpacesAppend(w, " ");
        assert RemoveSpaces(" ") == [];
        assert RemoveSpaces(Join(words)) == (RemoveSpaces(w) + []) + RemoveSpaces(rest);
      } else {
        assert words[1..] == [];
      }
    }
  }

  /** Two non-empty normalised texts joined by one space form a normalised text. */
  lemma JoinTwoClean(a: string, b: string)
    requires IsClean(a) && IsClean(b) && a != [] && b != []
    ensures IsClean(a + " " + b)
  {
    var s := a + " " + b;
    forall i | 0 <= i < |s| - 1
      ensures !(s[i] == ' ' && s[i + 1] == ' ')
    {
      if i < |a| - 1 {
        assert s[i] == a[i] && s[i + 1] == a[i + 1];
      } else if i == |a| - 1 {
        assert s[i] == a[i];
      } else if i == |a| {
        assert s[i + 1] == b[0];
      } else {
        assert s[i] == b[i - |a| - 1] && s[i + 1] == b[i - |a|];
      }
    }
    forall i | 0 <= i < |s|
      ensures IsCleanChar(s[i])
    {
      if i < |a| {
        assert s[i] == a[i];
      } else if i > |a| {
        assert s[i] == b[i - |a| - 1];
      }
    }
  }

  /** A single-space join of words of letters and digits is normalised. */
  lemma {:induction false} JoinIsClean(words: seq<string>)
    requires AllCleanWords(words)
    ensures IsClean(Join(words))
  {
    if words != [] {
      var w := words[0];
      assert IsClean(w) by {
        assert forall i :: 0 <= i < |w| ==> IsCleanChar(w[i]);
      }
      if |words| > 1 {
        JoinIsClean(words[1..]);
        assert words[1..][0] != [];
        JoinStart(words[1..]);
        JoinTwoClean(w, Join(words[1..]));
      }
    }
  }

  /** What follows a space inside a normalised text is a non-empty normalised text. */
  lemma CleanAfterSpace(t: string, a: nat)
    requires IsClean(t) && 0 < a <= |t| && t[a - 1] == ' '
    ensures a < |t| && IsClean(t[a..]) && t[a] != ' '
  {
    var r := t[a..];
    forall i | 0 <= i < |r| - 1
      ensures !(r[i] == ' ' && r[i + 1] == ' ')
    {
      assert r[i] == t[a + i] && r[i + 1] == t[a + i + 1];
    }
    forall i | 0 <= i < |r| ensures IsCleanChar(r[i]) {
      assert r[i] == t[a + i];
    }
  }

  /** One step of `str.split()` on a text that starts with a word followed by one space. */
  lemma SplitWordSpace(t: string)
    requires t != [] && !IsSpace(t[0])
    requires WordLength(t) < |t| && t[WordLength(t)] == ' '
    ensures var n := WordLength(t);
      && Split(t) == [t[..n]] + Split(t[n + 1..])
      && t == t[..n] + " " + t[n + 1..]
  {
    var n := WordLength(t);
    SplitStep(t);
    SplitAround(t, n);
    SplitAfterSpace(t[n + 1..]);
  }

  /** `str.split()` on a normalised text made of one word. */
  lemma SplitCleanLast(t: string)
    requires IsClean(t) && t != [] && WordLength(t) == |t|
    ensures Split(t) == [t]
  {
    assert DropSpaces(t) == t;
    SplitStep(t);
    assert t[|t|..] == [];
    assert Split(t[|t|..]) == [];
    assert t[..|t|] == t;
  }

  /** A normalised text that is not empty splits into at least one word. */
  lemma SplitCleanNotEmpty(t: string)
    requires IsClean(t) && t != []
    ensures Split(t) != []
  {
    assert DropSpaces(t) == t;
    SplitStep(t);
  }

  /** Splitting a normalised text and re-joining it gives it back. */
  lemma {:induction false} SplitOfClean(t: string)
    requires IsClean(t)
    ensures Join(Split(t)) == t
    decreases |t|
  {
    if t == [] {
      assert Split(t) == [];
    } else if WordLength(t) == |t| {
      SplitCleanLast(t);
    } else {
      var n := WordLength(t);
      assert t[n] == ' ';
      SplitWordSpace(t);
      CleanAfterSpace(t, n + 1);
      var rest := t[n + 1..];
      SplitOfClean(rest);
      SplitCleanNotEmpty(rest);
      var ws := Split(t);
      assert ws[0] == t[..n] && ws[1..] == Split(rest) && |ws| > 1;
      assert Join(ws) == t[..n] + " " + Join(ws[1..]);
    }
  }

  /** The output of `clean_text` is normalised. */
  lemma CleanTextIsClean(s: string)
    ensures IsClean(CleanText(s))
  {
    var kept := StripSymbols(Lower(s));
    StripSymbolsOfLowered(Lower(s));
    SplitGivesCleanWords(kept);
    JoinIsClean(Split(kept));
  }

  /** A normalised text is left unchanged by `clean_text`. */
  lemma CleanTextFixesClean(t: string)
    requires IsClean(t)
    ensures CleanText(t) == t
  {
    assert Lower(t) == t;
    StripSymbolsOfKept(t);
    SplitOfClean(t);
  }

  /** `clean_text` is idempotent. */
  lemma CleanTextIdempotent(s: string)
    ensures CleanText(CleanText(s)) == CleanText(s)
  {
    CleanTextIsClean(s);
    CleanTextFixesClean(CleanText(s));
  }

  /** The texts `clean_text` can return are exactly the normalised ones. */
  lemma CleanTextImage(t: string)
    ensures IsClean(t) <==> exists s :: CleanText(s) == t
  {
    if IsClean(t) {
      CleanTextFixesClean(t);
    }
    forall s | CleanText(s) == t ensures IsClean(t) {
      CleanTextIsClean(s);
    }
  }

  /**
   * `clean_text` keeps the letters and digits of the lower-cased input, in
   * order: removing the spaces from its output leaves exactly them.
   */
  lemma CleanTextKeepsAlnumInOrder(s: string)
    ensures RemoveSpaces(CleanText(s)) == AlnumOnly(Lower(s))
  {
    var kept := StripSymbols(Lower(s));
    SplitGivesWords(kept);
    RemoveSpacesOfJoin(Split(kept));
    ConcatSplit(kept);
    RemoveSpacesOfStripped(Lower(s));
  }
}
