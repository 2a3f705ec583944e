/**
 * The end-of-conversation detector of the assistant (`should_end_conversation`):
 * delete every ASCII punctuation character, strip surrounding whitespace, lower-case,
 * then search for the regular expression `\b(goodbye|bye)\b$`.
 *
 * Character classes follow Python's rules restricted to ASCII.
 */
module EndDetector {
  import opened Wrappers

  // ---------------------------------------------------------------------------
  // Character classes
  // ---------------------------------------------------------------------------

  /** Python's `string.punctuation`: the ranges ! .. /, : .. @, [ .. ` and { .. ~ */
  predicate IsPunctuation(c: char) {
    ('!' <= c <= '/') || (':' <= c <= '@') || ('[' <= c <= '`') || ('{' <= c <= '~')
  }

  /** What `str.strip()` removes among ASCII characters: \t \n \v \f \r, the separators 0x1C-0x1F and the space */
  predicate IsSpace(c: char) {
    (9 <= c as int <= 13) || (28 <= c as int <= 32)
  }

  predicate IsUpper(c: char) {
    'A' <= c <= 'Z'
  }

  /** `str.lower()` on one ASCII character */
  function Lower(c: char): char {
    if IsUpper(c) then (c as int + 32) as char else c
  }

  /** The regular expression class `\w` on ASCII: letters, digits and the underscore */
  predicate IsWordChar(c: char) {
    ('a' <= c <= 'z') || ('A' <= c <= 'Z') || ('0' <= c <= '9') || c == '_'
  }

  predicate NoPunctuation(s: string) {
    forall i :: 0 <= i < |s| ==> !IsPunctuation(s[i])
  }

  predicate AllPunctuation(s: string) {
    forall i :: 0 <= i < |s| ==> IsPunctuation(s[i])
  }

  predicate AllSpace(s: string) {
    forall i :: 0 <= i < |s| ==> IsSpace(s[i])
  }

  predicate NoUpper(s: string) {
    forall i :: 0 <= i < |s| ==> !IsUpper(s[i])
  }

  /** Neither end of s is whitespace */
  predicate Trimmed(s: string) {
    s == [] || (!IsSpace(s[0]) && !IsSpace(s[|s| - 1]))
  }

  // ---------------------------------------------------------------------------
  // Normalisation: translate, strip, lower
  // ---------------------------------------------------------------------------

  /** `text.translate(str.maketrans('', '', string.punctuation))` */
  function RemovePunctuation(s: string): (r: string)
    ensures NoPunctuation(r)
    ensures |r| <= |s|
    ensures NoPunctuation(s) ==> r == s
  {
    if s == [] then []
    else if IsPunctuation(s[0]) then RemovePunctuation(s[1..])
    else [s[0]] + RemovePunctuation(s[1..])
  }

  /** Leading half of `str.strip()`: the suffix of s left after dropping its leading whitespace */
  function TrimStart(s: string): (r: string)
    ensures |r| <= |s| && r == s[|s| - |r|..]
    ensures AllSpace(s[..|s| - |r|])
    ensures r == [] || !IsSpace(r[0])
  {
    if s != [] && IsSpace(s[0]) then
      var r := TrimStart(s[1..]);
      SpacePrefixGrows(s, r);
      r
    else s
  }

  /** Dropping one more leading whitespace character keeps the dropped part all whitespace */
  lemma SpacePrefixGrows(s: string, r: string)
    requires s != [] && IsSpace(s[0])
    requires |r| <= |s| - 1 && r == s[1..][|s| - 1 - |r|..] && AllSpace(s[1..][..|s| - 1 - |r|])
    ensures r == s[|s| - |r|..] && AllSpace(s[..|s| - |r|])
  {
    assert s[..|s| - |r|] == [s[0]] + s[1..][..|s| - 1 - |r|];
  }

  /** Trailing half of `str.strip()`: the prefix of s left after dropping its trailing whitespace */
  function TrimEnd(s: string): (r: string)
    ensures |r| <= |s| && r == s[..|r|]
    ensures AllSpace(s[|r|..])
    ensures r == [] || !IsSpace(r[|r| - 1])
  {
    if s != [] && IsSpace(s[|s| - 1]) then
      var r := TrimEnd(s[..|s| - 1]);
      SpaceSuffixGrows(s, r);
      r
    else s
  }

  /** Dropping one more trailing whitespace character keeps the dropped part all whitespace */
  lemma SpaceSuffixGrows(s: string, r: string)
    requires s != [] && IsSpace(s[|s| - 1])
    requires |r| <= |s| - 1 && r == s[..|s| - 1][..|r|] && AllSpace(s[..|s| - 1][|r|..])
    ensures r == s[..|r|] && AllSpace(s[|r|..])
  {
    assert s[|r|..] == s[..|s| - 1][|r|..] + [s[|s| - 1]];
  }

  /** `str.strip()` */
  function Strip(s: string): (r: string)
    ensures Trimmed(r)
  {
    TrimEnd(TrimStart(s))
  }

  /** `str.lower()`: the same length, each upper-case letter replaced by its lower-case partner 32 code points on, every other character kept */
  function LowerStr(s: string): (r: string)
    ensures |r| == |s| && NoUpper(r)
    ensures forall i :: 0 <= i < |s| ==> if IsUpper(s[i]) then r[i] as int == s[i] as int + 32 else r[i] == s[i]
  {
    seq(|s|, i requires 0 <= i < |s| => Lower(s[i]))
  }

  /** Strip keeps a contiguous slice of its argument, starting at i */
  lemma StripIsSlice(s: string) returns (i: nat)
    ensures i + |Strip(s)| <= |s| && Strip(s) == s[i..i + |Strip(s)|]
  {
    var a := TrimStart(s);
    i := |s| - |a|;
    assert Strip(s) == a[..|Strip(s)|];
  }

  lemma StripKeepsNoPunctuation(s: string)
    requires NoPunctuation(s)
    ensures NoPunctuation(Strip(s))
  {
    var i := StripIsSlice(s);
    forall k | 0 <= k < |Strip(s)| ensures !IsPunctuation(Strip(s)[k]) {
      assert Strip(s)[k] == s[i + k];
    }
  }

  /** Lower-casing keeps the punctuation and whitespace classes */
  lemma LowerStrKeepsClasses(s: string)
    ensures NoPunctuation(s) ==> NoPunctuation(LowerStr(s))
    ensures Trimmed(s) ==> Trimmed(LowerStr(s))
  {
  }

  /** What normalisation leaves: no punctuation, no surrounding whitespace, no upper case */
  predicate NormalForm(t: string) {
    NoPunctuation(t) && Trimmed(t) && NoUpper(t)
  }

  /** The text the regular expression is searched in */
  function Normalize(text: string): (r: string)
    ensures NormalForm(r)
  {
    var s := Strip(RemovePunctuation(text));
    StripKeepsNoPunctuation(RemovePunctuation(text));
    LowerStrKeepsClasses(s);
    LowerStr(s)
  }

  // ---------------------------------------------------------------------------
  // The regular expression \b(goodbye|bye)\b$ and re.search
  // ---------------------------------------------------------------------------

  /** `\w` at position k of t; positions outside t are not word characters */
  predicate WordAt(t: string, k: int) {
    0 <= k < |t| && IsWordChar(t[k])
  }

  /** `\b` at position k: exactly one of the two neighbouring characters is a word character */
  predicate BoundaryAt(t: string, k: int) {
    WordAt(t, k - 1) != WordAt(t, k)
  }

  /** `$` at position k: the end of t, or just before a newline that ends t */
  predicate EndAt(t: string, k: int) {
    k == |t| || (0 <= k && k == |t| - 1 && t[k] == '\n')
  }

  /** One alternative w of `(goodbye|bye)` read from position k, followed by `\b$` */
  predicate AlternativeAt(t: string, k: nat, w: string): (r: bool)
    ensures r ==> k + |w| <= |t| && (t[k..] == w || t[k..] == w + "\n")
  {
    if k + |w| <= |t| then
      assert t[k..] == t[k..k + |w|] + t[k + |w|..];
      t[k..k + |w|] == w && BoundaryAt(t, k + |w|) && EndAt(t, k + |w|)
    else
      false
  }

  /**
   * The whole pattern matches at position k: a word starts there and the rest of t is
   * "bye" or "goodbye", optionally followed by one newline
   */
  predicate MatchAt(t: string, k: nat): (r: bool)
    ensures r ==> k < |t| && WordAt(t, k) && !WordAt(t, k - 1)
    ensures r ==> t[k..] == "bye" || t[k..] == "goodbye" || t[k..] == "bye\n" || t[k..] == "goodbye\n"
  {
    BoundaryAt(t, k) && (AlternativeAt(t, k, "goodbye") || AlternativeAt(t, k, "bye"))
  }

  /** `re.search` from position k on: the leftmost position where the pattern matches */
  function SearchFrom(t: string, k: nat): (r: Option<nat>)
    decreases |t| + 1 - k
    ensures r.Some? ==> k <= r.value <= |t| && MatchAt(t, r.value)
    ensures r.Some? ==> forall j: nat :: k <= j < r.value ==> !MatchAt(t, j)
    ensures r.None? ==> forall j: nat :: k <= j <= |t| ==> !MatchAt(t, j)
  {
    if k > |t| then None
    else if MatchAt(t, k) then Some(k)
    else SearchFrom(t, k + 1)
  }

  /** t ends with the whole word w: w is a suffix, preceded by the start of t or a non-word character */
  predicate EndsWithWord(t: string, w: string) {
    |w| <= |t| && t[|t| - |w|..] == w && (|t| == |w| || !IsWordChar(t[|t| - |w| - 1]))
  }

  /** t ends with the whole word "bye" or the whole word "goodbye" */
  predicate FarewellEnding(t: string) {
    EndsWithWord(t, "bye") || EndsWithWord(t, "goodbye")
  }

  lemma WordSuffixMatches(t: string, w: string)
    requires w == "bye" || w == "goodbye"
    requires EndsWithWord(t, w)
    ensures MatchAt(t, |t| - |w|)
  {
    var k := |t| - |w|;
    assert t[k..k + |w|] == w;
    assert t[k] == w[0] && t[|t| - 1] == w[|w| - 1];
    assert WordAt(t, k) && !WordAt(t, k - 1);
    assert WordAt(t, |t| - 1) && !WordAt(t, |t|);
  }

  lemma MatchIsWordSuffix(t: string, k: nat)
    requires t == [] || t[|t| - 1] != '\n'
    requires MatchAt(t, k)
    ensures FarewellEnding(t)
  {
    var w := if AlternativeAt(t, k, "goodbye") then "goodbye" else "bye";
    assert AlternativeAt(t, k, w);
    assert k + |w| == |t|;
    assert t[k] == w[0];
    assert WordAt(t, k);
    assert t[|t| - |w|..] == t[k..k + |w|];
    assert EndsWithWord(t, w);
  }

  /** re.search finds `\b(goodbye|bye)\b$` in a text that does not end in a newline exactly when the text ends with the whole word "bye" or "goodbye" */
  lemma SearchMeaning(t: string)
    requires t == [] || t[|t| - 1] != '\n'
    ensures SearchFrom(t, 0).Some? <==> FarewellEnding(t)
  {
    var r := SearchFrom(t, 0);
    if r.Some? {
      MatchIsWordSuffix(t, r.value);
    }
    if EndsWithWord(t, "bye") {
      WordSuffixMatches(t, "bye");
    } else if EndsWithWord(t, "goodbye") {
      WordSuffixMatches(t, "goodbye");
    }
  }

  lemma TrimmedEndsWithoutNewline(t: string)
    requires Trimmed(t)
    ensures t == [] || t[|t| - 1] != '\n'
  {
  }

  /** `should_end_conversation(text)` */
  function ShouldEndConversation(text: string): (r: bool)
    ensures r <==> FarewellEnding(Normalize(text))
  {
    var t := Normalize(text);
    TrimmedEndsWithoutNewline(t);
    SearchMeaning(t);
    SearchFrom(t, 0).Some?
  }

  // ---------------------------------------------------------------------------
  // What the detector ignores: punctuation, surrounding whitespace, case
  // ---------------------------------------------------------------------------

  lemma {:induction false} RemovePunctuationConcat(a: string, b: string)
    ensures RemovePunctuation(a + b) == RemovePunctuation(a) + RemovePunctuation(b)
  {
    if a == [] {
      assert a + b == b;
    } else {
      assert (a + b)[1..] == a[1..] + b;
      RemovePunctuationConcat(a[1..], b);
    }
  }

  lemma {:induction false} RemovePunctuationOfPunctuation(p: string)
    requires AllPunctuation(p)
    ensures RemovePunctuation(p) == []
  {
    if p != [] {
      RemovePunctuationOfPunctuation(p[1..]);
    }
  }

  lemma DropPunctuationSuffix(s: string, p: string)
    requires AllPunctuation(p)
    ensures RemovePunctuation(s + p) == RemovePunctuation(s)
  {
    RemovePunctuationConcat(s, p);
    RemovePunctuationOfPunctuation(p);
    assert RemovePunctuation(s) + [] == RemovePunctuation(s);
  }

  lemma NormalizeDropsPunctuation(a: string, p: string, b: string)
    requires AllPunctuation(p)
    ensures Normalize(a + p + b) == Normalize(a + b)
  {
    DropPunctuationSuffix(a, p);
    RemovePunctuationConcat(a + p, b);
    RemovePunctuationConcat(a, b);
  }

  /** Punctuation inserted anywhere does not change the decision */
  lemma IgnoresPunctuation(a: string, p: string, b: string)
    requires AllPunctuation(p)
    ensures ShouldEndConversation(a + p + b) == ShouldEndConversation(a + b)
  {
    NormalizeDropsPunctuation(a, p, b);
  }

  lemma {:induction false} TrimStartSkipsSpace(w: string, x: string)
    requires AllSpace(w)
    ensures TrimStart(w + x) == TrimStart(x)
  {
    if w == [] {
      assert w + x == x;
    } else {
      assert (w + x)[1..] == w[1..] + x;
      TrimStartSkipsSpace(w[1..], x);
    }
  }

  lemma {:induction false} TrimEndSkipsSpace(x: string, w: string)
    requires AllSpace(w)
    ensures TrimEnd(x + w) == TrimEnd(x)
  {
    if w == [] {
      assert x + w == x;
    } else {
      var v := w[..|w| - 1];
      assert (x + w)[..|x + w| - 1] == x + v;
      TrimEndSkipsSpace(x, v);
    }
  }

  lemma {:induction false} StripSkipsTrailingSpace(y: string, w: string)
    requires AllSpace(w)
    ensures Strip(y + w) == Strip(y)
  {
    if y == [] {
      assert y + w == w;
      TrimStartSkipsSpace(w, []);
      assert w + [] == w;
    } else if IsSpace(y[0]) {
      assert (y + w)[1..] == y[1..] + w;
      StripSkipsTrailingSpace(y[1..], w);
    } else {
      TrimEndSkipsSpace(y, w);
    }
  }

  /** Whitespace has no punctuation, so deleting punctuation keeps it around the rest */
  lemma RemovePunctuationKeepsSpace(w1: string, s: string, w2: string)
    requires AllSpace(w1) && AllSpace(w2)
    ensures RemovePunctuation(w1 + s + w2) == w1 + RemovePunctuation(s) + w2
  {
    RemovePunctuationConcat(w1 + s, w2);
    RemovePunctuationConcat(w1, s);
    assert NoPunctuation(w1) && NoPunctuation(w2);
  }

  lemma StripSkipsSurroundingSpace(w1: string, x: string, w2: string)
    requires AllSpace(w1) && AllSpace(w2)
    ensures Strip(w1 + x + w2) == Strip(x)
  {
    assert w1 + x + w2 == w1 + (x + w2);
    TrimStartSkipsSpace(w1, x + w2);
    assert TrimStart(w1 + (x + w2)) == TrimStart(x + w2);
    assert Strip(w1 + (x + w2)) == Strip(x + w2);
    StripSkipsTrailingSpace(x, w2);
    assert Strip(x + w2) == Strip(x);
  }

  lemma NormalizeSkipsSurroundingSpace(w1: string, s: string, w2: string)
    requires AllSpace(w1) && AllSpace(w2)
    ensures Normalize(w1 + s + w2) == Normalize(s)
  {
    RemovePunctuationKeepsSpace(w1, s, w2);
    StripSkipsSurroundingSpace(w1, RemovePunctuation(s), w2);
  }

  /** Whitespace around the text does not change the decision */
  lemma IgnoresSurroundingSpace(w1: string, s: string, w2: string)
    requires AllSpace(w1) && AllSpace(w2)
    ensures ShouldEndConversation(w1 + s + w2) == ShouldEndConversation(s)
  {
    NormalizeSkipsSurroundingSpace(w1, s, w2);
  }

  lemma {:induction false} RemovePunctuationLower(s: string)
    ensures RemovePunctuation(LowerStr(s)) == LowerStr(RemovePunctuation(s))
  {
    if s != [] {
      assert LowerStr(s)[1..] == LowerStr(s[1..]);
      RemovePunctuationLower(s[1..]);
      assert LowerStr([s[0]] + RemovePunctuation(s[1..])) == [Lower(s[0])] + LowerStr(RemovePunctuation(s[1..]));
    }
  }

  lemma LowerKeepsSpace(c: char)
    ensures IsSpace(Lower(c)) <==> IsSpace(c)
  {
  }

  lemma {:induction false} TrimStartLower(s: string)
    ensures TrimStart(LowerStr(s)) == LowerStr(TrimStart(s))
  {
    var l := LowerStr(s);
    if s == [] {
      assert l == [];
    } else {
      assert l[0] == Lower(s[0]);
      LowerKeepsSpace(s[0]);
      if IsSpace(s[0]) {
        assert l[1..] == LowerStr(s[1..]);
        TrimStartLower(s[1..]);
      }
    }
  }

  lemma {:induction false} TrimEndLower(s: string)
    ensures TrimEnd(LowerStr(s)) == LowerStr(TrimEnd(s))
  {
    var l := LowerStr(s);
    if s == [] {
      assert l == [];
    } else {
      assert l[|s| - 1] == Lower(s[|s| - 1]);
      LowerKeepsSpace(s[|s| - 1]);
      if IsSpace(s[|s| - 1]) {
        assert l[..|s| - 1] == LowerStr(s[..|s| - 1]);
        TrimEndLower(s[..|s| - 1]);
      }
    }
  }

  lemma StripLower(x: string)
    ensures Strip(LowerStr(x)) == LowerStr(Strip(x))
  {
    TrimStartLower(x);
    TrimEndLower(TrimStart(x));
  }

  lemma LowerStrIdempotent(x: string)
    ensures LowerStr(LowerStr(x)) == LowerStr(x)
  {
  }

  lemma NormalizeOfLower(s: string)
    ensures Normalize(LowerStr(s)) == Normalize(s)
  {
    var x := RemovePunctuation(s);
    RemovePunctuationLower(s);
    assert RemovePunctuation(LowerStr(s)) == LowerStr(x);
    StripLower(x);
    LowerStrIdempotent(Strip(x));
  }

  /** Texts that agree once lower-cased get the same decision */
  lemma IgnoresCase(a: string, b: string)
    requires LowerStr(a) == LowerStr(b)
    ensures ShouldEndConversation(a) == ShouldEndConversation(b)
  {
    NormalizeOfLower(a);
    NormalizeOfLower(b);
  }

  /** A text in normal form is its own normalisation */
  lemma NormalFormIsFixed(t: string)
    requires NormalForm(t)
    ensures Normalize(t) == t
  {
    assert RemovePunctuation(t) == t;
    assert TrimStart(t) == t && TrimEnd(t) == t;
    assert Strip(t) == t;
    assert forall i :: 0 <= i < |t| ==> LowerStr(t)[i] == t[i];
    assert LowerStr(t) == t;
  }

  /** Normalising twice is normalising once, so the decision on a normalised text is the decision on the original */
  lemma NormalizeIdempotent(s: string)
    ensures Normalize(Normalize(s)) == Normalize(s)
    ensures ShouldEndConversation(Normalize(s)) == ShouldEndConversation(s)
  {
    NormalFormIsFixed(Normalize(s));
  }

  // ---------------------------------------------------------------------------
  // Examples
  // ---------------------------------------------------------------------------

  /** On a text already in normal form the decision is the regular expression's alone */
  lemma CleanDecision(t: string)
    requires NormalForm(t)
    ensures ShouldEndConversation(t) <==> FarewellEnding(t)
  {
    NormalFormIsFixed(t);
  }

  lemma GoodbyeExclaimedSameAsGoodbye()
    ensures ShouldEndConversation("Goodbye!") == ShouldEndConversation("Goodbye")
  {
    assert "Goodbye!" == "Goodbye" + "!" + [] && "Goodbye" + [] == "Goodbye";
    IgnoresPunctuation("Goodbye", "!", []);
  }

  lemma CapitalGoodbyeSameAsGoodbye()
    ensures ShouldEndConversation("Goodbye") == ShouldEndConversation("goodbye")
  {
    assert LowerStr("Goodbye") == LowerStr("goodbye");
    IgnoresCase("Goodbye", "goodbye");
  }

  lemma GoodbyeIsFarewell()
    ensures NormalForm("goodbye") && FarewellEnding("goodbye")
  {
    assert EndsWithWord("goodbye", "goodbye");
  }

  lemma ExampleGoodbyeExclaimed()
    ensures ShouldEndConversation("Goodbye!")
  {
    GoodbyeIsFarewell();
    CleanDecision("goodbye");
    CapitalGoodbyeSameAsGoodbye();
    GoodbyeExclaimedSameAsGoodbye();
  }

  lemma SaidGoodbyeIsFarewell()
    ensures NormalForm("i said goodbye") && FarewellEnding("i said goodbye")
  {
    var t := "i said goodbye";
    assert NoPunctuation(t);
    assert Trimmed(t) && NoUpper(t);
    assert t[|t| - 7..] == "goodbye" && !IsWordChar(t[|t| - 8]);
  }

  lemma CapitalSaidSameAsSaid()
    ensures ShouldEndConversation("I said goodbye") == ShouldEndConversation("i said goodbye")
  {
    assert LowerStr("I said goodbye") == LowerStr("i said goodbye");
    IgnoresCase("I said goodbye", "i said goodbye");
  }

  lemma ExampleSaidGoodbye()
    ensures ShouldEndConversation("I said goodbye")
  {
    SaidGoodbyeIsFarewell();
    CleanDecision("i said goodbye");
    CapitalSaidSameAsSaid();
  }

  lemma PaddedByeSameAsBye()
    ensures ShouldEndConversation("  BYE.") == ShouldEndConversation("BYE.")
  {
    assert "  BYE." == "  " + "BYE." + [];
    IgnoresSurroundingSpace("  ", "BYE.", []);
  }

  lemma ByeDotSameAsBye()
    ensures ShouldEndConversation("BYE.") == ShouldEndConversation("BYE")
  {
    assert "BYE." == "BYE" + "." + [] && "BYE" + [] == "BYE";
    IgnoresPunctuation("BYE", ".", []);
  }

  lemma CapitalByeSameAsBye()
    ensures ShouldEndConversation("BYE") == ShouldEndConversation("bye")
  {
    assert LowerStr("BYE") == LowerStr("bye");
    IgnoresCase("BYE", "bye");
  }

  lemma ByeIsFarewell()
    ensures NormalForm("bye") && FarewellEnding("bye")
  {
    assert EndsWithWord("bye", "bye");
  }

  lemma ExampleShoutedBye()
    ensures ShouldEndConversation("  BYE.")
  {
    ByeIsFarewell();
    CleanDecision("bye");
    CapitalByeSameAsBye();
    ByeDotSameAsBye();
    PaddedByeSameAsBye();
  }

  lemma ByeByeIsFarewell()
    ensures NormalForm("bye bye") && FarewellEnding("bye bye")
  {
    var t := "bye bye";
    assert NoPunctuation(t) && Trimmed(t) && NoUpper(t);
    assert t[|t| - 3..] == "bye" && !IsWordChar(t[|t| - 4]);
  }

  lemma ExampleByeBye()
    ensures ShouldEndConversation("bye bye")
  {
    ByeByeIsFarewell();
    CleanDecision("bye bye");
  }

  lemma TrailingLetterIsNoFarewell()
    ensures NormalForm("goodbyee") && !FarewellEnding("goodbyee")
  {
    var t := "goodbyee";
    assert NoPunctuation(t) && Trimmed(t) && NoUpper(t);
    assert !EndsWithWord(t, "bye") by { assert t[|t| - 2] == 'e'; }
    assert !EndsWithWord(t, "goodbye") by { assert t[|t| - 7] == 'o'; }
  }

  lemma ExampleTrailingLetter()
    ensures !ShouldEndConversation("goodbyee")
  {
    TrailingLetterIsNoFarewell();
    CleanDecision("goodbyee");
  }

  lemma GluedByeIsNoFarewell()
    ensures NormalForm("okbye") && !FarewellEnding("okbye")
  {
    var t := "okbye";
    assert NoPunctuation(t) && Trimmed(t) && NoUpper(t);
    assert !EndsWithWord(t, "bye") by { assert IsWordChar(t[|t| - 4]); }
  }

  lemma ExampleGluedBye()
    ensures !ShouldEndConversation("okbye")
  {
    GluedByeIsNoFarewell();
    CleanDecision("okbye");
  }
}
