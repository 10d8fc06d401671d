/** The confirmation classifier of `ConfirmationManager`: decides whether an inbound text is a
    short acknowledgement ("ok", "perfecto gracias", a thumbs-up, ...) that can be answered with
    a canned reply instead of a full assistant round-trip. The same classifier is inlined in
    both monolithic servers. */
module Confirmation {
  import opened Text

  // The six anchored alternations `^(a|b|...)$`, each as the finite set of texts it accepts.
  // The `i` flag is irrelevant: the text is lower-cased before it is matched.

  const AcknowledgementPhrases: set<string> :=
    {"muy bien", "perfecto", "ok", "okay", "vale", "genial", "excelente", "gracias", "thank you", "thanks"}
  const ThanksPhrases: set<string> :=
    {"muy bien gracias", "perfecto gracias", "ok gracias", "vale gracias", "genial gracias", "excelente gracias"}
  const FinePhrases: set<string> :=
    {"está bien", "esta bien", "está perfecto", "esta perfecto"}
  const ConfirmPhrases: set<string> :=
    {"confirmado", "confirmo", "acepto", "aceptado"}
  const EmojiPhrases: set<string> :=
    {"👍", "✅", "👌", "😊", "🙏"}
  const AffirmativePhrases: set<string> :=
    {"si", "sí", "yes", "yep", "yeah", "claro", "por supuesto"}

  /** The pattern list, in the order the classifier tries it. */
  const Patterns: seq<set<string>> :=
    [AcknowledgementPhrases, ThanksPhrases, FinePhrases, ConfirmPhrases, EmojiPhrases, AffirmativePhrases]

  /** Words that make a short message count as a confirmation. */
  const ConfirmationWords: seq<string> :=
    ["bien", "ok", "vale", "si", "sí", "yes", "gracias", "thanks", "perfecto"]

  /** Length bound (in UTF-16 code units, exclusive) and token bound of the short-message rule. */
  const ShortLimit: nat := 10
  const MaxShortWords: nat := 3

  /** The canned acknowledgement sent instead of an assistant reply. */
  const ConfirmationResponse: string :=
    "¡Perfecto! Me alegra saber que todo está bien. Si necesitas algo más, no dudes en preguntarme. 😊"

  /** The text the classifier actually looks at: trimmed, then lower-cased. */
  function Clean(message: string): string {
    Lower(Trim(message))
  }

  predicate MatchesPattern(clean: string) {
    exists k :: 0 <= k < |Patterns| && clean in Patterns[k]
  }

  /** The fallback: under ten UTF-16 units, at most three whitespace-separated tokens, and one
      of them a confirmation word. */
  predicate ShortAcknowledgement(clean: string) {
    && Utf16Length(clean) < ShortLimit
    && var words := SplitWs(clean);
       && |words| <= MaxShortWords
       && exists w :: w in words && w in ConfirmationWords
  }

  /** `isConfirmationMessage(message)`. */
  predicate IsConfirmationMessage(message: string) {
    var clean := Clean(message);
    MatchesPattern(clean) || ShortAcknowledgement(clean)
  }

  /** Cleaning is idempotent: trimming and lower-casing an already cleaned text changes nothing. */
  lemma CleanIdempotent(message: string)
    ensures Clean(Clean(message)) == Clean(message)
  {
    var t := Trim(message);
    LowerTrim(t);
    TrimIdempotent(message);
    LowerIdempotent(t);
  }

  /** Classification depends only on the trimmed, lower-cased text. */
  lemma ClassifiesCleanedText(message: string, other: string)
    ensures IsConfirmationMessage(message) <==> IsConfirmationMessage(Clean(message))
    ensures Clean(message) == Clean(other) ==>
      (IsConfirmationMessage(message) <==> IsConfirmationMessage(other))
  {
    CleanIdempotent(message);
  }

  /** A phrase of the pattern lists, written in any letter case and surrounded by any
      whitespace, is a confirmation. */
  lemma PatternPhrasesConfirm(pre: string, core: string, suf: string, k: nat)
    requires AllSpace(pre) && AllSpace(suf)
    requires core == [] || (!IsSpace(core[0]) && !IsSpace(core[|core| - 1]))
    requires k < |Patterns| && Lower(core) in Patterns[k]
    ensures IsConfirmationMessage(pre + core + suf)
  {
    TrimPadded(pre, core, suf);
    assert Clean(pre + core + suf) == Lower(core);
  }

  /** A cleaned text of ten or more UTF-16 units that is not a pattern phrase is never a
      confirmation. */
  lemma LongTextRejected(message: string)
    requires Utf16Length(Clean(message)) >= ShortLimit
    requires forall k :: 0 <= k < |Patterns| ==> Clean(message) !in Patterns[k]
    ensures !IsConfirmationMessage(message)
  {
  }

  /** Empty and whitespace-only texts are not confirmations: the cleaned text is empty, its only
      token is the empty string, and that is not a confirmation word. */
  lemma BlankRejected(message: string)
    requires forall i :: 0 <= i < |message| ==> IsSpace(message[i])
    ensures !IsConfirmationMessage(message)
  {
    assert Trim(message) == [];
    assert Clean(message) == [];
    assert SplitWs([]) == [[]];
  }

  /** Membership in a token list, stated by index. */
  lemma SomeWordByIndex(words: seq<string>)
    ensures (exists w :: w in words && w in ConfirmationWords) <==>
            (exists k :: 0 <= k < |words| && words[k] in ConfirmationWords)
  {
    if exists w :: w in words && w in ConfirmationWords {
      var w :| w in words && w in ConfirmationWords;
      var k :| 0 <= k < |words| && words[k] == w;
    }
  }

  /** Outside the pattern lists the classifier is exactly the short-message rule. */
  lemma FallbackRule(message: string)
    requires !MatchesPattern(Clean(message))
    ensures IsConfirmationMessage(message) <==>
      var clean := Clean(message);
      && Utf16Length(clean) < 10
      && |SplitWs(clean)| <= 3
      && (exists k :: 0 <= k < |SplitWs(clean)| && SplitWs(clean)[k] in ConfirmationWords)
  {
    var clean := Clean(message);
    assert IsConfirmationMessage(message) == ShortAcknowledgement(clean);
    SomeWordByIndex(SplitWs(clean));
  }

  /** A text with no capital letters and no whitespace at either end is already clean. */
  lemma CleanOfCleanText(s: string)
    requires s == [] || (!IsSpace(s[0]) && !IsSpace(s[|s| - 1]))
    requires forall i :: 0 <= i < |s| ==> !IsUpper(s[i])
    ensures Clean(s) == s
  {
    LowerTrimFixed(s);
  }

  /** A phrase needs no cleaning: no whitespace at either end and no capital letters. */
  predicate CleanPhrase(p: string) {
    && (p == [] || (!IsSpace(p[0]) && !IsSpace(p[|p| - 1])))
    && forall i :: 0 <= i < |p| ==> !IsUpper(p[i])
  }

  lemma AcknowledgementPhrasesClean()
    ensures forall p :: p in AcknowledgementPhrases ==> CleanPhrase(p)
  {
  }

  lemma ThanksPhrasesClean()
    ensures forall p :: p in ThanksPhrases ==> CleanPhrase(p)
  {
    LongThanksClean();
    ShortThanksClean();
  }

  lemma LongThanksClean()
    ensures CleanPhrase("muy bien gracias") && CleanPhrase("perfecto gracias")
    ensures CleanPhrase("excelente gracias")
  {
  }

  lemma ShortThanksClean()
    ensures CleanPhrase("ok gracias") && CleanPhrase("vale gracias") && CleanPhrase("genial gracias")
  {
  }

  lemma FinePhrasesClean()
    ensures forall p :: p in FinePhrases ==> CleanPhrase(p)
  {
  }

  lemma ConfirmPhrasesClean()
    ensures forall p :: p in ConfirmPhrases ==> CleanPhrase(p)
  {
  }

  lemma EmojiPhrasesClean()
    ensures forall p :: p in EmojiPhrases ==> CleanPhrase(p)
  {
  }

  lemma AffirmativePhrasesClean()
    ensures forall p :: p in AffirmativePhrases ==> CleanPhrase(p)
  {
  }

  /** Every phrase of every pattern list, sent exactly as listed, is a confirmation: each one
      survives cleaning unchanged. */
  lemma EveryPhraseConfirms(k: nat, p: string)
    requires k < |Patterns| && p in Patterns[k]
    ensures IsConfirmationMessage(p)
  {
    AcknowledgementPhrasesClean();
    ThanksPhrasesClean();
    FinePhrasesClean();
    ConfirmPhrasesClean();
    EmojiPhrasesClean();
    AffirmativePhrasesClean();
    assert CleanPhrase(p);
    CleanOfCleanText(p);
  }

  /** The short-message rule, read off a text that is already clean. */
  lemma ShortRuleApplies(m: string, w: string)
    requires Clean(m) == m && Utf16Length(m) < ShortLimit && |SplitWs(m)| <= MaxShortWords
    requires w in SplitWs(m) && w in ConfirmationWords
    ensures IsConfirmationMessage(m)
  {
    assert ShortAcknowledgement(m);
    assert ShortAcknowledgement(Clean(m));
  }

  /** Letter case and surrounding whitespace do not matter: "  OK  " cleans to "ok". */
  lemma CaseAndSpaceExample(m: string)
    requires m == "  OK  "
    ensures Clean(m) == "ok"
    ensures IsConfirmationMessage(m)
  {
    PaddedOkCleans(m);
    EveryPhraseConfirms(0, "ok");
    CleanOfCleanText("ok");
    ClassifiesCleanedText(m, "ok");
  }

  lemma PaddedOkCleans(m: string)
    requires m == "  OK  "
    ensures Clean(m) == "ok"
  {
    PaddedOkTrims(m);
    UpperOkLowers("OK");
  }

  lemma PaddedOkTrims(m: string)
    requires m == "  OK  "
    ensures Trim(m) == "OK"
  {
    assert m == "  " + "OK" + "  ";
    TrimPadded("  ", "OK", "  ");
  }

  lemma UpperOkLowers(m: string)
    requires m == "OK"
    ensures Lower(m) == "ok"
  {
    assert LowerChar('O') == 'o' && LowerChar('K') == 'k';
  }

  lemma SiClaroNoPhrase(m: string)
    requires m == "si claro"
    ensures !MatchesPattern(m)
  {
  }

  /** The two-word examples split at their one space. */
  lemma ExampleWords()
    ensures SplitWs("si claro") == ["si", "claro"]
    ensures SplitWs("ok 👍👍👍") == ["ok", "👍👍👍"]
  {
    assert "si claro" == "si" + " " + "claro";
    SplitTwoWords("si", "claro");
    assert "ok 👍👍👍" == "ok" + " " + "👍👍👍";
    SplitTwoWords("ok", "👍👍👍");
  }

  /** "si claro" is no pattern phrase, but it is short, has two tokens and one of them is "si". */
  lemma ShortRuleExample(m: string)
    requires m == "si claro"
    ensures !MatchesPattern(m)
    ensures IsConfirmationMessage(m)
  {
    SiClaroNoPhrase(m);
    CleanOfCleanText(m);
    ExampleWords();
    assert Utf16Length("si claro") == 8;
    ShortRuleApplies(m, "si");
  }

  /** Length is counted in UTF-16 units: "ok" and three thumbs-up (nine units) pass the
      short-message rule ... */
  lemma ThreeThumbsConfirm(m: string)
    requires m == "ok 👍👍👍"
    ensures IsConfirmationMessage(m)
  {
    CleanOfCleanText(m);
    ExampleWords();
    assert Utf16Length("ok 👍👍👍") == 9;
    ShortRuleApplies(m, "ok");
  }

  lemma FourThumbsNoPhrase(m: string)
    requires m == "ok 👍👍👍👍"
    ensures !MatchesPattern(m)
  {
  }

  lemma FourThumbsLength(m: string)
    requires m == "ok 👍👍👍👍"
    ensures |m| == 7 && Utf16Length(m) == 11
  {
    assert Utf16Length("ok 👍👍👍👍") == 11;
  }

  /** ... while four thumbs-up make eleven units and the same text is rejected, although it
      has only seven code points. */
  lemma FourThumbsRejected(m: string)
    requires m == "ok 👍👍👍👍"
    ensures |m| == 7
    ensures !IsConfirmationMessage(m)
  {
    CleanOfCleanText(m);
    FourThumbsNoPhrase(m);
    FourThumbsLength(m);
  }

  lemma RequestNoPhrase(m: string)
    requires m == "necesito ayuda con mi cita"
    ensures !MatchesPattern(m)
  {
  }

  /** A request for help is not a confirmation. */
  lemma RequestExample(m: string)
    requires m == "necesito ayuda con mi cita"
    ensures !IsConfirmationMessage(m)
  {
    CleanOfCleanText(m);
    RequestNoPhrase(m);
    Utf16LengthBmp(m);
  }
}
