/** The language table and language detection of the pipeline
    (lib/language-service.ts): the sixteen supported codes, the
    classifier-label mapping with its fallbacks, the Unicode-block
    heuristic, and the grouped language list shown to users. */
module Languages {
  import opened Base

  datatype LanguageInfo = LanguageInfo(name: string, flag: string, script: string)

  datatype LanguageEntry = LanguageEntry(code: string, info: LanguageInfo)

  const IndiaFlag := "🇮🇳"

  /** The supported languages, in declaration order (Indian languages first). */
  const SupportedLanguages: seq<LanguageEntry> := [
    LanguageEntry("hi", LanguageInfo("Hindi", IndiaFlag, "Devanagari")),
    LanguageEntry("bn", LanguageInfo("Bengali", IndiaFlag, "Bengali")),
    LanguageEntry("te", LanguageInfo("Telugu", IndiaFlag, "Telugu")),
    LanguageEntry("ta", LanguageInfo("Tamil", IndiaFlag, "Tamil")),
    LanguageEntry("mr", LanguageInfo("Marathi", IndiaFlag, "Devanagari")),
    LanguageEntry("gu", LanguageInfo("Gujarati", IndiaFlag, "Gujarati")),
    LanguageEntry("kn", LanguageInfo("Kannada", IndiaFlag, "Kannada")),
    LanguageEntry("ml", LanguageInfo("Malayalam", IndiaFlag, "Malayalam")),
    LanguageEntry("or", LanguageInfo("Odia", IndiaFlag, "Odia")),
    LanguageEntry("pa", LanguageInfo("Punjabi", IndiaFlag, "Gurmukhi")),
    LanguageEntry("en", LanguageInfo("English", "🌍", "Latin")),
    LanguageEntry("es", LanguageInfo("Spanish", "🇪🇸", "Latin")),
    LanguageEntry("fr", LanguageInfo("French", "🇫🇷", "Latin")),
    LanguageEntry("de", LanguageInfo("German", "🇩🇪", "Latin")),
    LanguageEntry("zh", LanguageInfo("Chinese", "🇨🇳", "Han")),
    LanguageEntry("ja", LanguageInfo("Japanese", "🇯🇵", "Japanese"))
  ]

  const EnglishInfo := LanguageInfo("English", "🌍", "Latin")

  function Codes(entries: seq<LanguageEntry>): (codes: seq<string>)
    ensures |codes| == |entries|
    ensures forall i :: 0 <= i < |entries| ==> codes[i] == entries[i].code
  {
    seq(|entries|, i requires 0 <= i < |entries| => entries[i].code)
  }

  /** `isValidLanguage`: the code is a key of the table. */
  predicate IsValidLanguage(code: string): (valid: bool)
    ensures valid <==> exists i :: 0 <= i < |SupportedLanguages| && SupportedLanguages[i].code == code
  {
    code in Codes(SupportedLanguages)
  }

  const SupportedCodes: seq<string> := ["hi", "bn", "te", "ta", "mr", "gu", "kn", "ml", "or", "pa",
                                        "en", "es", "fr", "de", "zh", "ja"]

  /** The sixteen codes are pairwise distinct. */
  lemma SupportedCodesDistinct()
    ensures NoDuplicates(SupportedCodes)
  {
  }

  /** The table's keys, in declaration order: sixteen codes, each once. */
  lemma SupportedCodesInOrder()
    ensures Codes(SupportedLanguages) == SupportedCodes
    ensures NoDuplicates(Codes(SupportedLanguages))
  {
    SupportedCodesDistinct();
    assert Codes(SupportedLanguages) == SupportedCodes;
  }

  /** The info of the first entry at or after position `k` whose code is `code`. */
  function LookupInfo(entries: seq<LanguageEntry>, code: string, k: nat): (r: Option<LanguageInfo>)
    requires k <= |entries|
    decreases |entries| - k
    ensures r.Some? <==> exists i :: k <= i < |entries| && entries[i].code == code
    ensures r.Some? ==> LanguageEntry(code, r.value) in entries
  {
    if k == |entries| then None
    else if entries[k].code == code then Some(entries[k].info)
    else LookupInfo(entries, code, k + 1)
  }

  /** `getLanguageInfo`: the table's entry for a valid code, English's otherwise. */
  function GetLanguageInfo(code: string): (info: LanguageInfo)
    ensures IsValidLanguage(code) ==> LanguageEntry(code, info) in SupportedLanguages
    ensures !IsValidLanguage(code) ==> info == EnglishInfo
  {
    assert IsValidLanguage(code) <==> exists i :: 0 <= i < |SupportedLanguages| && SupportedLanguages[i].code == code;
    match LookupInfo(SupportedLanguages, code, 0)
    case Some(info) => info
    case None => EnglishInfo
  }

  function Names(entries: seq<LanguageEntry>): (names: seq<string>)
    ensures |names| == |entries|
    ensures forall i :: 0 <= i < |entries| ==> names[i] == entries[i].info.name
  {
    seq(|entries|, i requires 0 <= i < |entries| => entries[i].info.name)
  }

  const SupportedNames: seq<string> :=
    ["Hindi", "Bengali", "Telugu", "Tamil", "Marathi", "Gujarati", "Kannada", "Malayalam",
     "Odia", "Punjabi", "English", "Spanish", "French", "German", "Chinese", "Japanese"]

  /** The table's language names, in declaration order, each once. */
  lemma SupportedNamesDistinct()
    ensures Names(SupportedLanguages) == SupportedNames
    ensures NoDuplicates(Names(SupportedLanguages))
  {
    NameListDistinct();
    assert Names(SupportedLanguages) == SupportedNames;
  }

  lemma NameListDistinct()
    ensures NoDuplicates(SupportedNames)
  {
  }

  /** The code of the first entry at or after position `k` whose language is called `name`. */
  function CodeOfName(entries: seq<LanguageEntry>, name: string, k: nat): Option<string>
    requires k <= |entries|
    decreases |entries| - k
  {
    if k == |entries| then None
    else if entries[k].info.name == name then Some(entries[k].code)
    else CodeOfName(entries, name, k + 1)
  }

  lemma {:induction false} CodeOfNameAt(entries: seq<LanguageEntry>, i: nat, k: nat)
    requires k <= i < |entries|
    requires forall j :: k <= j < i ==> entries[j].info.name != entries[i].info.name
    decreases i - k
    ensures CodeOfName(entries, entries[i].info.name, k) == Some(entries[i].code)
  {
    if k < i { CodeOfNameAt(entries, i, k + 1); }
  }

  /** The language name of a valid code leads back to that code: distinct
      codes have distinct names, so the name shown for a code identifies it. */
  lemma LanguageNameRoundTrip(code: string)
    requires IsValidLanguage(code)
    ensures CodeOfName(SupportedLanguages, GetLanguageInfo(code).name, 0) == Some(code)
  {
    SupportedCodesInOrder();
    SupportedNamesDistinct();
    var info := GetLanguageInfo(code);
    var i :| 0 <= i < |SupportedLanguages| && SupportedLanguages[i] == LanguageEntry(code, info);
    assert Names(SupportedLanguages)[i] == info.name;
    CodeOfNameAt(SupportedLanguages, i, 0);
  }

  // ---------------------------------------------------------------------
  // The Unicode-block heuristic (`detectLanguageByCharacters`)
  // ---------------------------------------------------------------------

  /** One test of the cascade: any character in [lo, hi] yields `code`. */
  datatype ScriptRange = ScriptRange(lo: char, hi: char, code: string)

  predicate Hit(r: ScriptRange, text: string)
  {
    exists i :: 0 <= i < |text| && r.lo <= text[i] <= r.hi
  }

  /** The cascade exactly as lib/language-service.ts writes it, in its order.
      The Japanese test is a class of two blocks, hence two rows. */
  const SourceScriptRanges: seq<ScriptRange> := [
    ScriptRange('\U{0900}', '\U{097F}', "hi"),
    ScriptRange('\U{0980}', '\U{09FF}', "bn"),
    ScriptRange('\U{0C00}', '\U{0C7F}', "te"),
    ScriptRange('\U{0B80}', '\U{0BFF}', "ta"),
    ScriptRange('\U{0B00}', '\U{0B7F}', "or"),
    ScriptRange('\U{0A80}', '\U{0AFF}', "gu"),
    ScriptRange('\U{0C80}', '\U{0CFF}', "kn"),
    ScriptRange('\U{0D00}', '\U{0D7F}', "ml"),
    ScriptRange('\U{0A00}', '\U{0A7F}', "pa"),
    ScriptRange('\U{4E00}', '\U{9FFF}', "zh"),
    ScriptRange('\U{3040}', '\U{309F}', "ja"),
    ScriptRange('\U{30A0}', '\U{30FF}', "ja"),
    ScriptRange('\U{0400}', '\U{04FF}', "en")
  ]

  /** The same cascade with the Devanagari test skipping the danda and double
      danda (U+0964, U+0965), punctuation that Bengali, Gujarati and Gurmukhi
      text uses too. */
  const ScriptRanges: seq<ScriptRange> := [
    ScriptRange('\U{0900}', '\U{0963}', "hi"),
    ScriptRange('\U{0966}', '\U{097F}', "hi"),
    ScriptRange('\U{0980}', '\U{09FF}', "bn"),
    ScriptRange('\U{0C00}', '\U{0C7F}', "te"),
    ScriptRange('\U{0B80}', '\U{0BFF}', "ta"),
    ScriptRange('\U{0B00}', '\U{0B7F}', "or"),
    ScriptRange('\U{0A80}', '\U{0AFF}', "gu"),
    ScriptRange('\U{0C80}', '\U{0CFF}', "kn"),
    ScriptRange('\U{0D00}', '\U{0D7F}', "ml"),
    ScriptRange('\U{0A00}', '\U{0A7F}', "pa"),
    ScriptRange('\U{4E00}', '\U{9FFF}', "zh"),
    ScriptRange('\U{3040}', '\U{309F}', "ja"),
    ScriptRange('\U{30A0}', '\U{30FF}', "ja"),
    ScriptRange('\U{0400}', '\U{04FF}', "en")
  ]

  /** First range in `ranges` with a character in `text`; "en" when none has. */
  function FirstHit(ranges: seq<ScriptRange>, text: string): (code: string)
    ensures code == "en" || exists k :: 0 <= k < |ranges| && ranges[k].code == code
  {
    if |ranges| == 0 then "en"
    else if Hit(ranges[0], text) then ranges[0].code
    else
      var c := FirstHit(ranges[1..], text);
      assert forall k :: 1 <= k < |ranges| ==> ranges[k] == ranges[1..][k - 1];
      c
  }

  /** The first range (in order) that has a character of the text decides. */
  lemma {:induction false} FirstHitIsFirstMatchingRange(ranges: seq<ScriptRange>, text: string, k: nat)
    requires k < |ranges| && Hit(ranges[k], text)
    requires forall j :: 0 <= j < k ==> !Hit(ranges[j], text)
    ensures FirstHit(ranges, text) == ranges[k].code
  {
    if k > 0 {
      assert !Hit(ranges[0], text);
      FirstHitIsFirstMatchingRange(ranges[1..], text, k - 1);
    }
  }

  /** With no character in any range the answer is "en". */
  lemma {:induction false} FirstHitWithoutMatch(ranges: seq<ScriptRange>, text: string)
    requires forall j :: 0 <= j < |ranges| ==> !Hit(ranges[j], text)
    ensures FirstHit(ranges, text) == "en"
  {
    if |ranges| > 0 {
      assert !Hit(ranges[0], text);
      FirstHitWithoutMatch(ranges[1..], text);
    }
  }

  /** `detectLanguageByCharacters` as written. */
  function DetectByCharactersAsWritten(text: string): (code: string)
    ensures code in {"hi", "bn", "te", "ta", "or", "gu", "kn", "ml", "pa", "zh", "ja", "en"}
  {
    FirstHit(SourceScriptRanges, text)
  }

  /** `detectLanguageByCharacters` with the danda correction; the model's
      language detection uses this one. */
  function DetectByCharacters(text: string): (code: string)
    ensures code in {"hi", "bn", "te", "ta", "or", "gu", "kn", "ml", "pa", "zh", "ja", "en"}
  {
    FirstHit(ScriptRanges, text)
  }

  /** The heuristic only ever answers with one of the table's codes, and never
      with Marathi, Spanish, French or German. */
  lemma HeuristicCodes(text: string)
    ensures IsValidLanguage(DetectByCharacters(text))
    ensures DetectByCharacters(text) !in {"mr", "es", "fr", "de"}
  {
    SupportedCodesInOrder();
    assert forall k :: 0 <= k < |ScriptRanges| ==>
      ScriptRanges[k].code in ["hi", "bn", "te", "ta", "or", "gu", "kn", "ml", "pa", "zh", "ja", "en"];
  }

  /** The same holds of the cascade as written. */
  lemma HeuristicCodesAsWritten(text: string)
    ensures IsValidLanguage(DetectByCharactersAsWritten(text))
    ensures DetectByCharactersAsWritten(text) !in {"mr", "es", "fr", "de"}
  {
    SupportedCodesInOrder();
    assert forall k :: 0 <= k < |SourceScriptRanges| ==>
      SourceScriptRanges[k].code in ["hi", "bn", "te", "ta", "or", "gu", "kn", "ml", "pa", "zh", "ja", "en"];
  }

  /** Any Devanagari letter forces "hi", whatever other scripts occur. As
      written, any character of the whole Devanagari block does. */
  lemma DevanagariForcesHindi(text: string, i: nat)
    requires i < |text|
    ensures '\U{0900}' <= text[i] <= '\U{097F}' ==> DetectByCharactersAsWritten(text) == "hi"
    ensures ('\U{0900}' <= text[i] <= '\U{0963}' || '\U{0966}' <= text[i] <= '\U{097F}')
            ==> DetectByCharacters(text) == "hi"
  {
    if '\U{0900}' <= text[i] <= '\U{097F}' {
      FirstHitIsFirstMatchingRange(SourceScriptRanges, text, 0);
    }
    if '\U{0900}' <= text[i] <= '\U{0963}' {
      FirstHitIsFirstMatchingRange(ScriptRanges, text, 0);
    } else if '\U{0966}' <= text[i] <= '\U{097F}' {
      if Hit(ScriptRanges[0], text) {
        FirstHitIsFirstMatchingRange(ScriptRanges, text, 0);
      } else {
        FirstHitIsFirstMatchingRange(ScriptRanges, text, 1);
      }
    }
  }

  /** A character outside a range does not change whether text hits it. */
  lemma HitIgnoresChar(r: ScriptRange, a: string, b: string, d: char)
    requires !(r.lo <= d <= r.hi)
    ensures Hit(r, a + [d] + b) <==> Hit(r, a + b)
  {
    var t, u := a + [d] + b, a + b;
    if Hit(r, t) {
      var i :| 0 <= i < |t| && r.lo <= t[i] <= r.hi;
      if i < |a| {
        assert u[i] == t[i];
      } else {
        assert u[i - 1] == t[i];
      }
    }
    if Hit(r, u) {
      var i :| 0 <= i < |u| && r.lo <= u[i] <= r.hi;
      if i < |a| {
        assert t[i] == u[i];
      } else {
        assert t[i + 1] == u[i];
      }
    }
  }

  /** Texts that hit the same ranges get the same answer. */
  lemma {:induction false} FirstHitSameHits(ranges: seq<ScriptRange>, t: string, u: string)
    requires forall j :: 0 <= j < |ranges| ==> (Hit(ranges[j], t) <==> Hit(ranges[j], u))
    ensures FirstHit(ranges, t) == FirstHit(ranges, u)
  {
    if |ranges| > 0 {
      assert Hit(ranges[0], t) <==> Hit(ranges[0], u);
      FirstHitSameHits(ranges[1..], t, u);
    }
  }

  /** The corrected cascade treats the danda and double danda as neutral
      punctuation: inserting one anywhere never changes its answer. */
  lemma DandaIsNeutral(a: string, b: string, d: char)
    requires d == '\U{0964}' || d == '\U{0965}'
    ensures DetectByCharacters(a + [d] + b) == DetectByCharacters(a + b)
  {
    assert forall j :: 0 <= j < |ScriptRanges| ==> !(ScriptRanges[j].lo <= d <= ScriptRanges[j].hi);
    forall j | 0 <= j < |ScriptRanges|
      ensures Hit(ScriptRanges[j], a + [d] + b) <==> Hit(ScriptRanges[j], a + b)
    {
      HitIgnoresChar(ScriptRanges[j], a, b, d);
    }
    FirstHitSameHits(ScriptRanges, a + [d] + b, a + b);
  }

  /** As written, one danda after a Bengali letter turns "bn" into "hi". */
  lemma DandaDecidesAsWritten()
    ensures DetectByCharactersAsWritten("\U{0995}") == "bn"
    ensures DetectByCharactersAsWritten("\U{0995}\U{0964}") == "hi"
  {
    var bengali, withDanda := "\U{0995}", "\U{0995}\U{0964}";
    assert !Hit(SourceScriptRanges[0], bengali);
    assert Hit(SourceScriptRanges[1], bengali) by { assert SourceScriptRanges[1].lo <= bengali[0] <= SourceScriptRanges[1].hi; }
    FirstHitIsFirstMatchingRange(SourceScriptRanges, bengali, 1);
    assert Hit(SourceScriptRanges[0], withDanda) by { assert SourceScriptRanges[0].lo <= withDanda[1] <= SourceScriptRanges[0].hi; }
    FirstHitIsFirstMatchingRange(SourceScriptRanges, withDanda, 0);
  }

  /** Text with no character of any tested block is English. */
  lemma NoScriptMeansEnglish(text: string)
    requires forall j :: 0 <= j < |SourceScriptRanges| ==> !Hit(SourceScriptRanges[j], text)
    ensures DetectByCharacters(text) == "en"
    ensures DetectByCharactersAsWritten(text) == "en"
  {
    FirstHitWithoutMatch(SourceScriptRanges, text);
    forall j | 2 <= j < |ScriptRanges| ensures !Hit(ScriptRanges[j], text) {
      assert ScriptRanges[j] == SourceScriptRanges[j - 1];
    }
    FirstHitWithoutMatch(ScriptRanges, text);
  }

  // ---------------------------------------------------------------------
  // Classifier labels (`detectLanguage`)
  // ---------------------------------------------------------------------

  datatype LabelEntry = LabelEntry(key: string, code: string)

  /** `languageMap`, in declaration order. */
  const LabelMap: seq<LabelEntry> := [
    LabelEntry("hindi", "hi"), LabelEntry("bengali", "bn"), LabelEntry("telugu", "te"),
    LabelEntry("tamil", "ta"), LabelEntry("marathi", "mr"), LabelEntry("gujarati", "gu"),
    LabelEntry("kannada", "kn"), LabelEntry("malayalam", "ml"), LabelEntry("odia", "or"),
    LabelEntry("punjabi", "pa"), LabelEntry("english", "en"), LabelEntry("spanish", "es"),
    LabelEntry("french", "fr"), LabelEntry("german", "de"), LabelEntry("chinese", "zh"),
    LabelEntry("japanese", "ja")
  ]

  /** The reply of the text classifier: a thrown error, a value that is not an
      array, or the ranked results with their (possibly missing) labels. */
  datatype ClassifierReply = ClassifierFailed(reason: string) | NotAList | Ranked(labels: seq<Option<string>>)

  const ShortTextLength := 10
  const ClassifierInputLength := 512

  /** `result[0]?.label?.toLowerCase() || "en"`. */
  function TopLabel(lbl: Option<string>): string
  {
    if lbl.Some? && ToLowerAscii(lbl.value) != "" then ToLowerAscii(lbl.value) else "en"
  }

  /** The code of the first `languageMap` key, at or after position `k`, that
      occurs in the label. */
  function FirstLabelCode(entries: seq<LabelEntry>, lbl: string, k: nat): Option<string>
    requires k <= |entries|
    decreases |entries| - k
  {
    if k == |entries| then None
    else if Contains(lbl, entries[k].key) then Some(entries[k].code)
    else FirstLabelCode(entries, lbl, k + 1)
  }

  /** Characterisation of FirstLabelCode: it is the code of the earliest key
      contained in the label, and None exactly when no key is contained. */
  lemma {:induction false} FirstLabelCodeIsEarliestKey(entries: seq<LabelEntry>, lbl: string, k: nat)
    requires k <= |entries|
    decreases |entries| - k
    ensures FirstLabelCode(entries, lbl, k).None? <==>
            forall j :: k <= j < |entries| ==> !Contains(lbl, entries[j].key)
    ensures FirstLabelCode(entries, lbl, k).Some? ==>
            exists m :: k <= m < |entries| && Contains(lbl, entries[m].key) &&
                        FirstLabelCode(entries, lbl, k).value == entries[m].code &&
                        forall j :: k <= j < m ==> !Contains(lbl, entries[j].key)
  {
    if k < |entries| && !Contains(lbl, entries[k].key) {
      FirstLabelCodeIsEarliestKey(entries, lbl, k + 1);
    }
  }

  /** What `detectLanguage` answers for a text of at least ten characters,
      given the classifier's reply, with the cascade `ranges` as the
      fallback: `SourceScriptRanges` for the code as written, `ScriptRanges`
      for the corrected one. */
  function LanguageFromReply(ranges: seq<ScriptRange>, text: string, reply: ClassifierReply): (code: string)
    ensures code == "en" || (exists j :: 0 <= j < |LabelMap| && LabelMap[j].code == code) ||
            (exists k :: 0 <= k < |ranges| && ranges[k].code == code)
  {
    match reply
    case ClassifierFailed(_) => "en"
    case NotAList => FirstHit(ranges, text)
    case Ranked(labels) =>
      if |labels| == 0 then FirstHit(ranges, text)
      else
        match FirstLabelCode(LabelMap, TopLabel(labels[0]), 0)
        case Some(code) =>
          FirstLabelCodeIsEarliestKey(LabelMap, TopLabel(labels[0]), 0);
          code
        case None => FirstHit(ranges, text)
  }

  /** Both cascades answer only codes of the table. */
  lemma CascadeCodesSupported()
    ensures forall k :: 0 <= k < |SourceScriptRanges| ==> IsValidLanguage(SourceScriptRanges[k].code)
    ensures forall k :: 0 <= k < |ScriptRanges| ==> IsValidLanguage(ScriptRanges[k].code)
  {
    SupportedCodesInOrder();
    assert forall k :: 0 <= k < |SourceScriptRanges| ==> SourceScriptRanges[k].code in Codes(SupportedLanguages);
    assert forall k :: 0 <= k < |ScriptRanges| ==> ScriptRanges[k].code in Codes(SupportedLanguages);
  }

  /** With a cascade of supported codes, the detected code is always one of
      the sixteen supported ones. */
  lemma LanguageFromReplyIsSupported(ranges: seq<ScriptRange>, text: string, reply: ClassifierReply)
    requires forall k :: 0 <= k < |ranges| ==> IsValidLanguage(ranges[k].code)
    ensures IsValidLanguage(LanguageFromReply(ranges, text, reply))
  {
    SupportedCodesInOrder();
    assert IsValidLanguage("en") by { assert Codes(SupportedLanguages)[10] == "en"; }
    if reply.Ranked? && |reply.labels| > 0 {
      var lbl := TopLabel(reply.labels[0]);
      FirstLabelCodeIsEarliestKey(LabelMap, lbl, 0);
      if FirstLabelCode(LabelMap, lbl, 0).Some? {
        var m :| 0 <= m < |LabelMap| && FirstLabelCode(LabelMap, lbl, 0).value == LabelMap[m].code;
        LabelCodesSupported();
        assert IsValidLanguage(LabelMap[m].code);
      }
    }
  }

  /** Every code `languageMap` maps to is a supported one. */
  lemma LabelCodesSupported()
    ensures forall k :: 0 <= k < |LabelMap| ==> IsValidLanguage(LabelMap[k].code)
  {
    SupportedCodesInOrder();
    assert forall k :: 0 <= k < |LabelMap| ==> LabelMap[k].code in Codes(SupportedLanguages);
  }

  /** A ranked reply whose top label mentions a known language name yields
      the code of the first such name in declaration order; a reply without a
      usable label falls back to the heuristic, and a failed call yields "en". */
  lemma LanguageFromReplyCases(ranges: seq<ScriptRange>, text: string, reply: ClassifierReply)
    ensures reply.ClassifierFailed? ==> LanguageFromReply(ranges, text, reply) == "en"
    ensures reply.NotAList? || reply == Ranked([]) ==> LanguageFromReply(ranges, text, reply) == FirstHit(ranges, text)
    ensures reply.Ranked? && |reply.labels| > 0 &&
            (forall j :: 0 <= j < |LabelMap| ==> !Contains(TopLabel(reply.labels[0]), LabelMap[j].key))
            ==> LanguageFromReply(ranges, text, reply) == FirstHit(ranges, text)
    ensures reply.Ranked? && |reply.labels| > 0 && !Truthy(reply.labels[0])
            ==> LanguageFromReply(ranges, text, reply) == FirstHit(ranges, text)
    ensures reply.Ranked? && |reply.labels| > 0 && FirstLabelCode(LabelMap, TopLabel(reply.labels[0]), 0).Some?
            ==> LanguageFromReply(ranges, text, reply) == FirstLabelCode(LabelMap, TopLabel(reply.labels[0]), 0).value
  {
    if reply.Ranked? && |reply.labels| > 0 {
      var lbl := TopLabel(reply.labels[0]);
      FirstLabelCodeIsEarliestKey(LabelMap, lbl, 0);
      if !Truthy(reply.labels[0]) {
        assert lbl == "en";
        forall j | 0 <= j < |LabelMap| ensures !Contains(lbl, LabelMap[j].key) {
          assert |LabelMap[j].key| > 2;
        }
      }
    }
  }

  /** `detectLanguage`: short text is English without asking the classifier;
      otherwise the classifier sees the first 512 characters, its top label is
      matched against `languageMap` in order, and the cascade as written is
      the fallback. */
  method DetectLanguage(text: string, classify: string -> ClassifierReply) returns (code: string)
    ensures |text| < ShortTextLength ==> code == "en"
    ensures |text| >= ShortTextLength ==>
              code == LanguageFromReply(SourceScriptRanges, text, classify(Prefix(text, ClassifierInputLength)))
    ensures IsValidLanguage(code)
  {
    if text == "" || |text| < ShortTextLength {
      SupportedCodesInOrder();
      return "en";
    }
    var reply := classify(Prefix(text, ClassifierInputLength));
    CascadeCodesSupported();
    LanguageFromReplyIsSupported(SourceScriptRanges, text, reply);
    if reply.ClassifierFailed? {
      return "en";
    }
    if reply.Ranked? && |reply.labels| > 0 {
      var topLabel := TopLabel(reply.labels[0]);
      var i := 0;
      while i < |LabelMap|
        invariant 0 <= i <= |LabelMap|
        invariant FirstLabelCode(LabelMap, topLabel, 0) == FirstLabelCode(LabelMap, topLabel, i)
      {
        if Contains(topLabel, LabelMap[i].key) {
          return LabelMap[i].code;
        }
        i := i + 1;
      }
    }
    code := DetectByCharactersAsWritten(text);
  }

  /** Five Bengali letters, each followed by a danda: long enough for the
      classifier path. */
  const DandaProbe := "\U{0995}\U{0964}\U{0995}\U{0964}\U{0995}\U{0964}\U{0995}\U{0964}\U{0995}\U{0964}"

  /** When the classifier's reply is unusable, the fallback decides: as
      written the dandas make this Bengali text "hi" ... */
  lemma DandaDecidesDetectionAsWritten()
    ensures |DandaProbe| >= ShortTextLength
    ensures LanguageFromReply(SourceScriptRanges, DandaProbe, NotAList) == "hi"
  {
    var t := DandaProbe;
    assert Hit(SourceScriptRanges[0], t) by { assert SourceScriptRanges[0].lo <= t[1] <= SourceScriptRanges[0].hi; }
    FirstHitIsFirstMatchingRange(SourceScriptRanges, t, 0);
  }

  /** ... while the corrected cascade answers "bn". */
  lemma DandaProbeCorrected()
    ensures LanguageFromReply(ScriptRanges, DandaProbe, NotAList) == "bn"
  {
    var t := DandaProbe;
    var bengali, danda := '\U{0995}', '\U{0964}';
    assert t == [bengali, danda, bengali, danda, bengali, danda, bengali, danda, bengali, danda];
    assert forall i :: 0 <= i < |t| ==> t[i] == bengali || t[i] == danda;
    assert !Hit(ScriptRanges[0], t) && !Hit(ScriptRanges[1], t);
    assert Hit(ScriptRanges[2], t) by { assert ScriptRanges[2].lo <= t[0] <= ScriptRanges[2].hi; }
    FirstHitIsFirstMatchingRange(ScriptRanges, t, 2);
  }

  // ---------------------------------------------------------------------
  // The grouped language list (`formatLanguageList`)
  // ---------------------------------------------------------------------

  const IndianCodes: seq<string> := ["hi", "bn", "te", "ta", "mr", "gu", "kn", "ml", "or", "pa"]

  predicate IsIndianCode(code: string) { |code| == 2 && code in IndianCodes }

  /** The entries among the first `n` of the table that belong to one group, in table order. */
  function Group(entries: seq<LanguageEntry>, n: nat, indian: bool): seq<LanguageEntry>
    requires n <= |entries|
  {
    if n == 0 then []
    else Group(entries, n - 1, indian) + (if IsIndianCode(entries[n - 1].code) == indian then [entries[n - 1]] else [])
  }

  function Line(e: LanguageEntry): string
  {
    e.info.flag + " /" + e.code + " - " + e.info.name
  }

  function Lines(entries: seq<LanguageEntry>): (lines: seq<string>)
    ensures |lines| == |entries|
    ensures forall i :: 0 <= i < |entries| ==> lines[i] == Line(entries[i])
  {
    seq(|entries|, i requires 0 <= i < |entries| => Line(entries[i]))
  }

  const IndianHeading := "🇮🇳 *Indian Languages (भारतीय भाषाएं):*\n"
  const InternationalHeading := "\n\n🌍 *International Languages:*\n"

  /** Splitting into the two groups loses and duplicates nothing. */
  lemma {:induction false} GroupsPartition(entries: seq<LanguageEntry>, n: nat)
    requires n <= |entries|
    ensures multiset(Group(entries, n, true) + Group(entries, n, false)) == multiset(entries[..n])
  {
    GroupCounts(entries, n);
  }

  /** The two groups' multisets add up to the first `n` entries'. */
  lemma {:induction false} GroupCounts(entries: seq<LanguageEntry>, n: nat)
    requires n <= |entries|
    ensures multiset(Group(entries, n, true)) + multiset(Group(entries, n, false)) == multiset(entries[..n])
  {
    if n == 0 {
      assert entries[..n] == [];
    } else {
      GroupCounts(entries, n - 1);
      var e := entries[n - 1];
      GroupStep(entries, n, true);
      GroupStep(entries, n, false);
      PrefixMultiset(entries, n);
      AddToOneSide(multiset(Group(entries, n - 1, true)), multiset(Group(entries, n - 1, false)),
                   multiset(entries[..n - 1]), e, IsIndianCode(e.code));
    }
  }

  /** Adding an element to one side of a split adds it to the whole. */
  lemma AddToOneSide<T>(left: multiset<T>, right: multiset<T>, whole: multiset<T>, e: T, toLeft: bool)
    requires left + right == whole
    ensures (left + (if toLeft then multiset{e} else multiset{})) +
            (right + (if !toLeft then multiset{e} else multiset{})) == whole + multiset{e}
  {
  }

  /** Lengthening a prefix by one adds its last element. */
  lemma PrefixMultiset<T>(s: seq<T>, n: nat)
    requires 0 < n <= |s|
    ensures multiset(s[..n]) == multiset(s[..n - 1]) + multiset{s[n - 1]}
  {
    assert s[..n] == s[..n - 1] + [s[n - 1]];
  }

  /** Lengthening a slice by one appends the next element. */
  lemma SliceSnoc<T>(s: seq<T>, i: nat, n: nat)
    requires i < n <= |s|
    ensures s[i..n] == s[i..n - 1] + [s[n - 1]]
  {
  }

  /** Entry `n - 1` joins exactly the group it belongs to. */
  lemma GroupStep(entries: seq<LanguageEntry>, n: nat, indian: bool)
    requires 0 < n <= |entries|
    ensures multiset(Group(entries, n, indian)) ==
            multiset(Group(entries, n - 1, indian)) +
            (if IsIndianCode(entries[n - 1].code) == indian then multiset{entries[n - 1]} else multiset{})
  {
  }

  /** A table whose first `split` entries are Indian and the rest international
      puts exactly its first `split` entries in the Indian group ... */
  lemma {:induction false} IndianGroupIsPrefix(entries: seq<LanguageEntry>, split: nat, n: nat)
    requires split <= |entries| && n <= |entries|
    requires forall i :: 0 <= i < split ==> IsIndianCode(entries[i].code)
    requires forall i :: split <= i < |entries| ==> !IsIndianCode(entries[i].code)
    ensures Group(entries, n, true) == entries[..Min(n, split)]
  {
    if n > 0 {
      IndianGroupIsPrefix(entries, split, n - 1);
      if n - 1 < split {
        assert IsIndianCode(entries[n - 1].code);
        SliceSnoc(entries, 0, n);
        assert entries[0..n] == entries[..n] && entries[0..n - 1] == entries[..n - 1];
      } else {
        assert !IsIndianCode(entries[n - 1].code);
      }
    }
  }

  /** ... and the rest in the international group. */
  lemma {:induction false} InternationalGroupIsSuffix(entries: seq<LanguageEntry>, split: nat, n: nat)
    requires split <= |entries| && n <= |entries|
    requires forall i :: 0 <= i < split ==> IsIndianCode(entries[i].code)
    requires forall i :: split <= i < |entries| ==> !IsIndianCode(entries[i].code)
    ensures Group(entries, n, false) == (if n <= split then [] else entries[split..n])
  {
    if n > split {
      InternationalGroupIsSuffix(entries, split, n - 1);
      assert !IsIndianCode(entries[n - 1].code);
      assert Group(entries, n, false) == Group(entries, n - 1, false) + [entries[n - 1]];
      SliceSnoc(entries, split, n);
      if n - 1 == split {
        assert entries[split..n - 1] == [];
      }
    } else if n > 0 {
      InternationalGroupIsSuffix(entries, split, n - 1);
      assert IsIndianCode(entries[n - 1].code);
      assert Group(entries, n, false) == Group(entries, n - 1, false);
    }
  }

  /** The table lists the ten Indian languages first. */
  lemma SupportedIndianFirst()
    ensures forall i :: 0 <= i < 10 ==> IsIndianCode(SupportedLanguages[i].code)
    ensures forall i :: 10 <= i < |SupportedLanguages| ==> !IsIndianCode(SupportedLanguages[i].code)
  {
    SupportedCodesInOrder();
  }

  /** The Indian group holds the ten Indian codes in declaration order. */
  lemma IndianGroupCodes()
    ensures Codes(Group(SupportedLanguages, 16, true)) == IndianCodes
  {
    SupportedIndianFirst();
    IndianGroupIsPrefix(SupportedLanguages, 10, 16);
    SupportedCodesInOrder();
    var codes := Codes(SupportedLanguages);
    var indian := Codes(SupportedLanguages[..10]);
    assert forall i :: 0 <= i < 10 ==> indian[i] == codes[i];
    assert indian == codes[..10];
  }

  /** The international group holds the other six codes in declaration order. */
  lemma InternationalGroupCodes()
    ensures Codes(Group(SupportedLanguages, 16, false)) == ["en", "es", "fr", "de", "zh", "ja"]
  {
    SupportedIndianFirst();
    InternationalGroupIsSuffix(SupportedLanguages, 10, 16);
    SupportedCodesInOrder();
    var codes := Codes(SupportedLanguages);
    var international := Codes(SupportedLanguages[10..16]);
    assert forall i :: 0 <= i < 6 ==> international[i] == codes[10 + i];
    assert international == codes[10..];
  }

  /** Together the two groups list every table entry exactly once. */
  lemma GroupsCoverTable()
    ensures multiset(Group(SupportedLanguages, 16, true) + Group(SupportedLanguages, 16, false))
            == multiset(SupportedLanguages)
  {
    GroupsPartition(SupportedLanguages, 16);
    assert SupportedLanguages[..16] == SupportedLanguages;
  }

  /** `formatLanguageList`: one line per table entry, Indian group first. */
  method FormatLanguageList() returns (list: string)
    ensures list == IndianHeading + Join(Lines(Group(SupportedLanguages, 16, true)), "\n") +
                    InternationalHeading + Join(Lines(Group(SupportedLanguages, 16, false)), "\n")
  {
    var indianLanguages: seq<string> := [];
    var internationalLanguages: seq<string> := [];
    for i := 0 to |SupportedLanguages|
      invariant indianLanguages == Lines(Group(SupportedLanguages, i, true))
      invariant internationalLanguages == Lines(Group(SupportedLanguages, i, false))
    {
      var entry := SupportedLanguages[i];
      var line := Line(entry);
      if |entry.code| == 2 && entry.code in IndianCodes {
        indianLanguages := indianLanguages + [line];
      } else {
        internationalLanguages := internationalLanguages + [line];
      }
    }
    list := IndianHeading + Join(indianLanguages, "\n") + InternationalHeading + Join(internationalLanguages, "\n");
  }
}
