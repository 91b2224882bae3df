/** The sample sentences of test-indian-lang.mjs run through the script
    heuristic: each Indic sample is made of ASCII characters, characters of
    its own block and, in some, the danda; the corrected cascade names the
    block's language, while the cascade as written answers "hi" for every
    sample that ends with a danda. */
module LanguageSamples {
  import opened Base
  import opened Languages

  /** `c` is ASCII, in [lo, hi], or (when `dandas`) a danda or double danda. */
  predicate AllowedChar(c: char, lo: char, hi: char, dandas: bool)
  {
    c < '\U{0080}' || lo <= c <= hi || (dandas && (c == '\U{0964}' || c == '\U{0965}'))
  }

  predicate WithinScript(s: string, lo: char, hi: char, dandas: bool)
  {
    forall i :: 0 <= i < |s| ==> AllowedChar(s[i], lo, hi, dandas)
  }

  /** `WithinScript` for the characters from index `k` on, by recursion on the
      index so that a short literal is checked character by character. */
  predicate AllowedFrom(s: string, lo: char, hi: char, dandas: bool, k: nat)
    decreases |s| - k
  {
    k >= |s| || (AllowedChar(s[k], lo, hi, dandas) && AllowedFrom(s, lo, hi, dandas, k + 1))
  }

  lemma {:induction false} AllowedFromWithin(s: string, lo: char, hi: char, dandas: bool, k: nat)
    requires AllowedFrom(s, lo, hi, dandas, k)
    ensures forall i :: k <= i < |s| ==> AllowedChar(s[i], lo, hi, dandas)
    decreases |s| - k
  {
    if k < |s| {
      AllowedFromWithin(s, lo, hi, dandas, k + 1);
    }
  }

  /** Every one of the first `n` pieces passes `AllowedFrom`. */
  predicate PiecesAllowed(pieces: seq<string>, lo: char, hi: char, dandas: bool, n: nat)
    requires n <= |pieces|
  {
    n == 0 || (AllowedFrom(pieces[n - 1], lo, hi, dandas, 0) && PiecesAllowed(pieces, lo, hi, dandas, n - 1))
  }

  lemma {:induction false} PiecesAllowedFirst(pieces: seq<string>, lo: char, hi: char, dandas: bool, n: nat)
    requires 0 < n <= |pieces| && PiecesAllowed(pieces, lo, hi, dandas, n)
    ensures AllowedFrom(pieces[0], lo, hi, dandas, 0)
  {
    if n > 1 {
      PiecesAllowedFirst(pieces, lo, hi, dandas, n - 1);
    }
  }

  lemma {:induction false} PiecesAllowedRest(pieces: seq<string>, lo: char, hi: char, dandas: bool, n: nat)
    requires 0 < n <= |pieces| && PiecesAllowed(pieces, lo, hi, dandas, n)
    ensures PiecesAllowed(pieces[1..], lo, hi, dandas, n - 1)
  {
    if n > 1 {
      PiecesAllowedRest(pieces, lo, hi, dandas, n - 1);
    }
  }

  lemma {:induction false} PiecesWithin(pieces: seq<string>, lo: char, hi: char, dandas: bool)
    requires PiecesAllowed(pieces, lo, hi, dandas, |pieces|)
    ensures WithinScript(Concat(pieces), lo, hi, dandas)
  {
    if |pieces| > 0 {
      PiecesAllowedFirst(pieces, lo, hi, dandas, |pieces|);
      AllowedFromWithin(pieces[0], lo, hi, dandas, 0);
      PiecesAllowedRest(pieces, lo, hi, dandas, |pieces|);
      PiecesWithin(pieces[1..], lo, hi, dandas);
      var s := Concat(pieces);
      assert s == pieces[0] + Concat(pieces[1..]);
      forall i | 0 <= i < |s| ensures AllowedChar(s[i], lo, hi, dandas) {
        if i >= |pieces[0]| {
          assert s[i] == Concat(pieces[1..])[i - |pieces[0]|];
        }
      }
    }
  }

  /** Character `i` of piece `c` occurs in the concatenation, at the returned index. */
  lemma {:induction false} PieceCharOccurs(pieces: seq<string>, c: nat, i: nat) returns (w: nat)
    requires c < |pieces| && i < |pieces[c]|
    ensures w < |Concat(pieces)| && Concat(pieces)[w] == pieces[c][i]
  {
    assert Concat(pieces) == pieces[0] + Concat(pieces[1..]);
    if c == 0 {
      w := i;
    } else {
      var v := PieceCharOccurs(pieces[1..], c - 1, i);
      w := |pieces[0]| + v;
    }
  }

  /** A tested range that no allowed character falls in. */
  predicate Avoids(r: ScriptRange, lo: char, hi: char, dandas: bool)
  {
    '\U{0080}' <= r.lo && (r.hi < lo || hi < r.lo) &&
    (dandas ==> !(r.lo <= '\U{0964}' <= r.hi) && !(r.lo <= '\U{0965}' <= r.hi))
  }

  /** The first `k` ranges all avoid the allowed characters. */
  predicate AvoidsBelow(ranges: seq<ScriptRange>, lo: char, hi: char, dandas: bool, k: nat)
    requires k <= |ranges|
  {
    k == 0 || (Avoids(ranges[k - 1], lo, hi, dandas) && AvoidsBelow(ranges, lo, hi, dandas, k - 1))
  }

  lemma {:induction false} NoHitBelow(ranges: seq<ScriptRange>, text: string, lo: char, hi: char, dandas: bool, k: nat)
    requires k <= |ranges| && AvoidsBelow(ranges, lo, hi, dandas, k)
    requires WithinScript(text, lo, hi, dandas)
    ensures forall j :: 0 <= j < k ==> !Hit(ranges[j], text)
  {
    if k > 0 {
      NoHitBelow(ranges, text, lo, hi, dandas, k - 1);
      var r := ranges[k - 1];
      assert Avoids(r, lo, hi, dandas);
      forall i | 0 <= i < |text| ensures !(r.lo <= text[i] <= r.hi) {
        assert AllowedChar(text[i], lo, hi, dandas);
      }
    }
  }

  /** Text made only of allowed characters with one character in range `k`,
      where every earlier range avoids the allowed characters, is given range
      `k`'s language. */
  lemma DetectedByBlock(ranges: seq<ScriptRange>, text: string, lo: char, hi: char, dandas: bool, k: nat, w: nat)
    requires k < |ranges| && w < |text|
    requires WithinScript(text, lo, hi, dandas)
    requires ranges[k].lo <= text[w] <= ranges[k].hi
    requires AvoidsBelow(ranges, lo, hi, dandas, k)
    ensures FirstHit(ranges, text) == ranges[k].code
  {
    NoHitBelow(ranges, text, lo, hi, dandas, k);
    FirstHitIsFirstMatchingRange(ranges, text, k);
  }

  /** `DetectedByBlock` for a text given in pieces whose first character is in range `k`. */
  lemma DetectedPieces(ranges: seq<ScriptRange>, pieces: seq<string>, lo: char, hi: char, dandas: bool, k: nat)
    requires k < |ranges| && |pieces| > 0 && |pieces[0]| > 0
    requires PiecesAllowed(pieces, lo, hi, dandas, |pieces|)
    requires ranges[k].lo <= pieces[0][0] <= ranges[k].hi
    requires AvoidsBelow(ranges, lo, hi, dandas, k)
    ensures FirstHit(ranges, Concat(pieces)) == ranges[k].code
  {
    PiecesWithin(pieces, lo, hi, dandas);
    var w := PieceCharOccurs(pieces, 0, 0);
    DetectedByBlock(ranges, Concat(pieces), lo, hi, dandas, k, w);
  }

  /** A danda in any piece makes the cascade as written answer "hi". */
  lemma DandaPieceAsWritten(pieces: seq<string>, c: nat, i: nat)
    requires c < |pieces| && i < |pieces[c]| && pieces[c][i] == '\U{0964}'
    ensures DetectByCharactersAsWritten(Concat(pieces)) == "hi"
  {
    var w := PieceCharOccurs(pieces, c, i);
    DevanagariForcesHindi(Concat(pieces), w);
  }

  /** The Hindi sample (expected "hi"), in pieces of at most ten characters. */
  const HindiPieces: seq<string> := [
    "नई तकनीक स",
    "े फोन की ब",
    "ैटरी चलेगी",
    " 5 दिन। कृ",
    "त्रिम बुद्",
    "धिमत्ता के",
    " क्षेत्र म",
    "ें यह एक ब",
    "ड़ी सफलता ",
    "है।"
  ]

  const HindiSample: string := Concat(HindiPieces)

  /** A Devanagari letter opens the Hindi sample, so both variants answer "hi". */
  lemma HindiSampleDetection()
    ensures DetectByCharacters(HindiSample) == "hi"
    ensures DetectByCharactersAsWritten(HindiSample) == "hi"
  {
    var w := PieceCharOccurs(HindiPieces, 0, 0);
    DevanagariForcesHindi(HindiSample, w);
  }

  /** The Bengali sample (expected "bn"), in pieces of at most ten characters. */
  const BengaliPieces: seq<string> := [
    "নতুন প্রযু",
    "ক্তি সহ স্",
    "মার্টফোনের",
    " ব্যাটারি ",
    "৫ দিন চলবে",
    "। এটি কৃত্",
    "রিম বুদ্ধি",
    "মত্তার ক্ষ",
    "েত্রে একটি",
    " বড় সাফল্",
    "য।"
  ]

  const BengaliSample: string := Concat(BengaliPieces)

  /** Every character of the Bengali sample is ASCII, in its block or a danda. */
  lemma BengaliSampleAllowed()
    ensures PiecesAllowed(BengaliPieces, '\U{0980}', '\U{09FF}', true, |BengaliPieces|)
  {
    assert PiecesAllowed(BengaliPieces, '\U{0980}', '\U{09FF}', true, 1);
    assert PiecesAllowed(BengaliPieces, '\U{0980}', '\U{09FF}', true, 2);
    assert PiecesAllowed(BengaliPieces, '\U{0980}', '\U{09FF}', true, 3);
    assert PiecesAllowed(BengaliPieces, '\U{0980}', '\U{09FF}', true, 4);
    assert PiecesAllowed(BengaliPieces, '\U{0980}', '\U{09FF}', true, 5);
    assert PiecesAllowed(BengaliPieces, '\U{0980}', '\U{09FF}', true, 6);
    assert PiecesAllowed(BengaliPieces, '\U{0980}', '\U{09FF}', true, 7);
    assert PiecesAllowed(BengaliPieces, '\U{0980}', '\U{09FF}', true, 8);
    assert PiecesAllowed(BengaliPieces, '\U{0980}', '\U{09FF}', true, 9);
    assert PiecesAllowed(BengaliPieces, '\U{0980}', '\U{09FF}', true, 10);
    assert PiecesAllowed(BengaliPieces, '\U{0980}', '\U{09FF}', true, 11);
  }

  /** The corrected cascade answers "bn" for the Bengali sample. */
  lemma BengaliSampleDetection()
    ensures DetectByCharacters(BengaliSample) == "bn"
  {
    assert ScriptRanges[2].lo <= BengaliPieces[0][0] <= ScriptRanges[2].hi;
    assert AvoidsBelow(ScriptRanges, '\U{0980}', '\U{09FF}', true, 2);
    BengaliSampleAllowed();
    DetectedPieces(ScriptRanges, BengaliPieces, '\U{0980}', '\U{09FF}', true, 2);
  }

  /** The Bengali sample ends with a danda, so the cascade as written answers "hi". */
  lemma BengaliSampleAsWritten()
    ensures DetectByCharactersAsWritten(BengaliSample) == "hi"
  {
    DandaPieceAsWritten(BengaliPieces, 10, 1);
  }

  /** The Tamil sample (expected "ta"), in pieces of at most ten characters. */
  const TamilPieces: seq<string> := [
    "நாம் தற்போ",
    "து புரட்சி",
    "கரமான செயற",
    "்கை நுண்ணற",
    "ிவு தொழில்",
    "நுட்பத்தை ",
    "சந்தித்து ",
    "வருகிறோம்."
  ]

  const TamilSample: string := Concat(TamilPieces)

  /** Every character of the Tamil sample is ASCII, in its block. */
  lemma TamilSampleAllowed()
    ensures PiecesAllowed(TamilPieces, '\U{0B80}', '\U{0BFF}', false, |TamilPieces|)
  {
    assert PiecesAllowed(TamilPieces, '\U{0B80}', '\U{0BFF}', false, 1);
    assert PiecesAllowed(TamilPieces, '\U{0B80}', '\U{0BFF}', false, 2);
    assert PiecesAllowed(TamilPieces, '\U{0B80}', '\U{0BFF}', false, 3);
    assert PiecesAllowed(TamilPieces, '\U{0B80}', '\U{0BFF}', false, 4);
    assert PiecesAllowed(TamilPieces, '\U{0B80}', '\U{0BFF}', false, 5);
    assert PiecesAllowed(TamilPieces, '\U{0B80}', '\U{0BFF}', false, 6);
    assert PiecesAllowed(TamilPieces, '\U{0B80}', '\U{0BFF}', false, 7);
    assert PiecesAllowed(TamilPieces, '\U{0B80}', '\U{0BFF}', false, 8);
  }

  /** The corrected cascade answers "ta" for the Tamil sample. */
  lemma TamilSampleDetection()
    ensures DetectByCharacters(TamilSample) == "ta"
  {
    assert ScriptRanges[4].lo <= TamilPieces[0][0] <= ScriptRanges[4].hi;
    assert AvoidsBelow(ScriptRanges, '\U{0B80}', '\U{0BFF}', false, 4);
    TamilSampleAllowed();
    DetectedPieces(ScriptRanges, TamilPieces, '\U{0B80}', '\U{0BFF}', false, 4);
  }

  /** The Tamil sample has no danda, so the cascade as written agrees. */
  lemma TamilSampleAsWritten()
    ensures DetectByCharactersAsWritten(TamilSample) == "ta"
  {
    assert SourceScriptRanges[3].lo <= TamilPieces[0][0] <= SourceScriptRanges[3].hi;
    assert AvoidsBelow(SourceScriptRanges, '\U{0B80}', '\U{0BFF}', false, 3);
    TamilSampleAllowed();
    DetectedPieces(SourceScriptRanges, TamilPieces, '\U{0B80}', '\U{0BFF}', false, 3);
  }

  /** The Telugu sample (expected "te"), in pieces of at most ten characters. */
  const TeluguPieces: seq<string> := [
    "కృత్రిమ మే",
    "ధస్సు మరియ",
    "ు యంత్రాభి",
    "జ్ఞానం వ్య",
    "వహారం యొక్",
    "క భవిష్యత్",
    "తు నిర్ణయి",
    "స్తుంది."
  ]

  const TeluguSample: string := Concat(TeluguPieces)

  /** Every character of the Telugu sample is ASCII, in its block. */
  lemma TeluguSampleAllowed()
    ensures PiecesAllowed(TeluguPieces, '\U{0C00}', '\U{0C7F}', false, |TeluguPieces|)
  {
    assert PiecesAllowed(TeluguPieces, '\U{0C00}', '\U{0C7F}', false, 1);
    assert PiecesAllowed(TeluguPieces, '\U{0C00}', '\U{0C7F}', false, 2);
    assert PiecesAllowed(TeluguPieces, '\U{0C00}', '\U{0C7F}', false, 3);
    assert PiecesAllowed(TeluguPieces, '\U{0C00}', '\U{0C7F}', false, 4);
    assert PiecesAllowed(TeluguPieces, '\U{0C00}', '\U{0C7F}', false, 5);
    assert PiecesAllowed(TeluguPieces, '\U{0C00}', '\U{0C7F}', false, 6);
    assert PiecesAllowed(TeluguPieces, '\U{0C00}', '\U{0C7F}', false, 7);
    assert PiecesAllowed(TeluguPieces, '\U{0C00}', '\U{0C7F}', false, 8);
  }

  /** The corrected cascade answers "te" for the Telugu sample. */
  lemma TeluguSampleDetection()
    ensures DetectByCharacters(TeluguSample) == "te"
  {
    assert ScriptRanges[3].lo <= TeluguPieces[0][0] <= ScriptRanges[3].hi;
    assert AvoidsBelow(ScriptRanges, '\U{0C00}', '\U{0C7F}', false, 3);
    TeluguSampleAllowed();
    DetectedPieces(ScriptRanges, TeluguPieces, '\U{0C00}', '\U{0C7F}', false, 3);
  }

  /** The Telugu sample has no danda, so the cascade as written agrees. */
  lemma TeluguSampleAsWritten()
    ensures DetectByCharactersAsWritten(TeluguSample) == "te"
  {
    assert SourceScriptRanges[2].lo <= TeluguPieces[0][0] <= SourceScriptRanges[2].hi;
    assert AvoidsBelow(SourceScriptRanges, '\U{0C00}', '\U{0C7F}', false, 2);
    TeluguSampleAllowed();
    DetectedPieces(SourceScriptRanges, TeluguPieces, '\U{0C00}', '\U{0C7F}', false, 2);
  }

  /** The Marathi sample (expected "mr"), in pieces of at most ten characters. */
  const MarathiPieces: seq<string> := [
    "डिजिटल भार",
    "तामध्ये नव",
    "ीन तंत्रज्",
    "ञान हा एक ",
    "महत्त्वाचा",
    " भूमिका बज",
    "ावत आहे।"
  ]

  const MarathiSample: string := Concat(MarathiPieces)

  /** A Devanagari letter opens the Marathi sample, so both variants answer "hi". */
  lemma MarathiSampleDetection()
    ensures DetectByCharacters(MarathiSample) == "hi"
    ensures DetectByCharactersAsWritten(MarathiSample) == "hi"
  {
    var w := PieceCharOccurs(MarathiPieces, 0, 0);
    DevanagariForcesHindi(MarathiSample, w);
  }

  /** The Gujarati sample (expected "gu"), in pieces of at most ten characters. */
  const GujaratiPieces: seq<string> := [
    "ગુજરાતમાં ",
    "તકનીકી ઉદ્",
    "ભાવન અને સ",
    "્માર્ટ ટાઉ",
    "નનો વિકાસ ",
    "તીવ્રતર થઈ",
    " રહ્યો છે।"
  ]

  const GujaratiSample: string := Concat(GujaratiPieces)

  /** Every character of the Gujarati sample is ASCII, in its block or a danda. */
  lemma GujaratiSampleAllowed()
    ensures PiecesAllowed(GujaratiPieces, '\U{0A80}', '\U{0AFF}', true, |GujaratiPieces|)
  {
    assert PiecesAllowed(GujaratiPieces, '\U{0A80}', '\U{0AFF}', true, 1);
    assert PiecesAllowed(GujaratiPieces, '\U{0A80}', '\U{0AFF}', true, 2);
    assert PiecesAllowed(GujaratiPieces, '\U{0A80}', '\U{0AFF}', true, 3);
    assert PiecesAllowed(GujaratiPieces, '\U{0A80}', '\U{0AFF}', true, 4);
    assert PiecesAllowed(GujaratiPieces, '\U{0A80}', '\U{0AFF}', true, 5);
    assert PiecesAllowed(GujaratiPieces, '\U{0A80}', '\U{0AFF}', true, 6);
    assert PiecesAllowed(GujaratiPieces, '\U{0A80}', '\U{0AFF}', true, 7);
  }

  /** The corrected cascade answers "gu" for the Gujarati sample. */
  lemma GujaratiSampleDetection()
    ensures DetectByCharacters(GujaratiSample) == "gu"
  {
    assert ScriptRanges[6].lo <= GujaratiPieces[0][0] <= ScriptRanges[6].hi;
    assert AvoidsBelow(ScriptRanges, '\U{0A80}', '\U{0AFF}', true, 6);
    GujaratiSampleAllowed();
    DetectedPieces(ScriptRanges, GujaratiPieces, '\U{0A80}', '\U{0AFF}', true, 6);
  }

  /** The Gujarati sample ends with a danda, so the cascade as written answers "hi". */
  lemma GujaratiSampleAsWritten()
    ensures DetectByCharactersAsWritten(GujaratiSample) == "hi"
  {
    DandaPieceAsWritten(GujaratiPieces, 6, 9);
  }

  /** The Kannada sample (expected "kn"), in pieces of at most ten characters. */
  const KannadaPieces: seq<string> := [
    "ಕನ್ನಡ ಆಧುನ",
    "ಿಕ ತಂತ್ರಜ್",
    "ಞಾನ ಮತ್ತು ",
    "ನವೋದ್ಭಾವನದ",
    " ಕೇಂದ್ರವಾಗ",
    "ಿ ಮುಂದುವರೆ",
    "ದಿದೆ."
  ]

  const KannadaSample: string := Concat(KannadaPieces)

  /** Every character of the Kannada sample is ASCII, in its block. */
  lemma KannadaSampleAllowed()
    ensures PiecesAllowed(KannadaPieces, '\U{0C80}', '\U{0CFF}', false, |KannadaPieces|)
  {
    assert PiecesAllowed(KannadaPieces, '\U{0C80}', '\U{0CFF}', false, 1);
    assert PiecesAllowed(KannadaPieces, '\U{0C80}', '\U{0CFF}', false, 2);
    assert PiecesAllowed(KannadaPieces, '\U{0C80}', '\U{0CFF}', false, 3);
    assert PiecesAllowed(KannadaPieces, '\U{0C80}', '\U{0CFF}', false, 4);
    assert PiecesAllowed(KannadaPieces, '\U{0C80}', '\U{0CFF}', false, 5);
    assert PiecesAllowed(KannadaPieces, '\U{0C80}', '\U{0CFF}', false, 6);
    assert PiecesAllowed(KannadaPieces, '\U{0C80}', '\U{0CFF}', false, 7);
  }

  /** The corrected cascade answers "kn" for the Kannada sample. */
  lemma KannadaSampleDetection()
    ensures DetectByCharacters(KannadaSample) == "kn"
  {
    assert ScriptRanges[7].lo <= KannadaPieces[0][0] <= ScriptRanges[7].hi;
    assert AvoidsBelow(ScriptRanges, '\U{0C80}', '\U{0CFF}', false, 7);
    KannadaSampleAllowed();
    DetectedPieces(ScriptRanges, KannadaPieces, '\U{0C80}', '\U{0CFF}', false, 7);
  }

  /** The Kannada sample has no danda, so the cascade as written agrees. */
  lemma KannadaSampleAsWritten()
    ensures DetectByCharactersAsWritten(KannadaSample) == "kn"
  {
    assert SourceScriptRanges[6].lo <= KannadaPieces[0][0] <= SourceScriptRanges[6].hi;
    assert AvoidsBelow(SourceScriptRanges, '\U{0C80}', '\U{0CFF}', false, 6);
    KannadaSampleAllowed();
    DetectedPieces(SourceScriptRanges, KannadaPieces, '\U{0C80}', '\U{0CFF}', false, 6);
  }

  /** The Malayalam sample (expected "ml"), in pieces of at most ten characters. */
  const MalayalamPieces: seq<string> := [
    "കേരളത്തിലെ",
    " ഐടി സമൃദ്",
    "ധി കഴിഞ്ഞ ",
    "ദശകത്തിൽ ഗ",
    "ണ്യമായ വളർ",
    "ച്ച കൈവരിച",
    "്ചിരിക്കുന",
    "്നു."
  ]

  const MalayalamSample: string := Concat(MalayalamPieces)

  /** Every character of the Malayalam sample is ASCII, in its block. */
  lemma MalayalamSampleAllowed()
    ensures PiecesAllowed(MalayalamPieces, '\U{0D00}', '\U{0D7F}', false, |MalayalamPieces|)
  {
    assert PiecesAllowed(MalayalamPieces, '\U{0D00}', '\U{0D7F}', false, 1);
    assert PiecesAllowed(MalayalamPieces, '\U{0D00}', '\U{0D7F}', false, 2);
    assert PiecesAllowed(MalayalamPieces, '\U{0D00}', '\U{0D7F}', false, 3);
    assert PiecesAllowed(MalayalamPieces, '\U{0D00}', '\U{0D7F}', false, 4);
    assert PiecesAllowed(MalayalamPieces, '\U{0D00}', '\U{0D7F}', false, 5);
    assert PiecesAllowed(MalayalamPieces, '\U{0D00}', '\U{0D7F}', false, 6);
    assert PiecesAllowed(MalayalamPieces, '\U{0D00}', '\U{0D7F}', false, 7);
    assert PiecesAllowed(MalayalamPieces, '\U{0D00}', '\U{0D7F}', false, 8);
  }

  /** The corrected cascade answers "ml" for the Malayalam sample. */
  lemma MalayalamSampleDetection()
    ensures DetectByCharacters(MalayalamSample) == "ml"
  {
    assert ScriptRanges[8].lo <= MalayalamPieces[0][0] <= ScriptRanges[8].hi;
    assert AvoidsBelow(ScriptRanges, '\U{0D00}', '\U{0D7F}', false, 8);
    MalayalamSampleAllowed();
    DetectedPieces(ScriptRanges, MalayalamPieces, '\U{0D00}', '\U{0D7F}', false, 8);
  }

  /** The Malayalam sample has no danda, so the cascade as written agrees. */
  lemma MalayalamSampleAsWritten()
    ensures DetectByCharactersAsWritten(MalayalamSample) == "ml"
  {
    assert SourceScriptRanges[7].lo <= MalayalamPieces[0][0] <= SourceScriptRanges[7].hi;
    assert AvoidsBelow(SourceScriptRanges, '\U{0D00}', '\U{0D7F}', false, 7);
    MalayalamSampleAllowed();
    DetectedPieces(SourceScriptRanges, MalayalamPieces, '\U{0D00}', '\U{0D7F}', false, 7);
  }

  /** The Punjabi sample (expected "pa"), in pieces of at most ten characters. */
  const PunjabiPieces: seq<string> := [
    "ਪੰਜਾਬ ਵਿੱਚ",
    " ਮਾਈਕ੍ਰੋ-ਇ",
    "ਲੈਕਟ੍ਰਾਨਿਕ",
    "ਸ ਅਤੇ ਆਈਟੀ",
    " ਸੈਕਟਰ ਦੀ ",
    "ਤੇਜ਼ੀ ਨਾਲ ",
    "ਵਿਕਾਸ ਹੋ ਰ",
    "ਿਹਾ ਹੈ।"
  ]

  const PunjabiSample: string := Concat(PunjabiPieces)

  /** Every character of the Punjabi sample is ASCII, in its block or a danda. */
  lemma PunjabiSampleAllowed()
    ensures PiecesAllowed(PunjabiPieces, '\U{0A00}', '\U{0A7F}', true, |PunjabiPieces|)
  {
    assert PiecesAllowed(PunjabiPieces, '\U{0A00}', '\U{0A7F}', true, 1);
    assert PiecesAllowed(PunjabiPieces, '\U{0A00}', '\U{0A7F}', true, 2);
    assert PiecesAllowed(PunjabiPieces, '\U{0A00}', '\U{0A7F}', true, 3);
    assert PiecesAllowed(PunjabiPieces, '\U{0A00}', '\U{0A7F}', true, 4);
    assert PiecesAllowed(PunjabiPieces, '\U{0A00}', '\U{0A7F}', true, 5);
    assert PiecesAllowed(PunjabiPieces, '\U{0A00}', '\U{0A7F}', true, 6);
    assert PiecesAllowed(PunjabiPieces, '\U{0A00}', '\U{0A7F}', true, 7);
    assert PiecesAllowed(PunjabiPieces, '\U{0A00}', '\U{0A7F}', true, 8);
  }

  /** The corrected cascade answers "pa" for the Punjabi sample. */
  lemma PunjabiSampleDetection()
    ensures DetectByCharacters(PunjabiSample) == "pa"
  {
    assert ScriptRanges[9].lo <= PunjabiPieces[0][0] <= ScriptRanges[9].hi;
    assert AvoidsBelow(ScriptRanges, '\U{0A00}', '\U{0A7F}', true, 9);
    PunjabiSampleAllowed();
    DetectedPieces(ScriptRanges, PunjabiPieces, '\U{0A00}', '\U{0A7F}', true, 9);
  }

  /** The Punjabi sample ends with a danda, so the cascade as written answers "hi". */
  lemma PunjabiSampleAsWritten()
    ensures DetectByCharactersAsWritten(PunjabiSample) == "hi"
  {
    DandaPieceAsWritten(PunjabiPieces, 7, 6);
  }

  /** The English sample (expected "en"), in pieces of at most ten characters. */
  const EnglishPieces: seq<string> := [
    "Artificial",
    " intellige",
    "nce and ma",
    "chine lear",
    "ning are t",
    "ransformin",
    "g the tech",
    " industry."
  ]

  const EnglishSample: string := Concat(EnglishPieces)

  /** Every character of the English sample is ASCII, printable. */
  lemma EnglishSampleAllowed()
    ensures PiecesAllowed(EnglishPieces, ' ', '~', false, |EnglishPieces|)
  {
    assert PiecesAllowed(EnglishPieces, ' ', '~', false, 1);
    assert PiecesAllowed(EnglishPieces, ' ', '~', false, 2);
    assert PiecesAllowed(EnglishPieces, ' ', '~', false, 3);
    assert PiecesAllowed(EnglishPieces, ' ', '~', false, 4);
    assert PiecesAllowed(EnglishPieces, ' ', '~', false, 5);
    assert PiecesAllowed(EnglishPieces, ' ', '~', false, 6);
    assert PiecesAllowed(EnglishPieces, ' ', '~', false, 7);
    assert PiecesAllowed(EnglishPieces, ' ', '~', false, 8);
  }

  /** No character of the English sample lies in a tested block. */
  lemma EnglishSampleDetection()
    ensures DetectByCharacters(EnglishSample) == "en"
    ensures DetectByCharactersAsWritten(EnglishSample) == "en"
  {
    EnglishSampleAllowed();
    PiecesWithin(EnglishPieces, ' ', '~', false);
    assert AvoidsBelow(SourceScriptRanges, ' ', '~', false, 1);
    assert AvoidsBelow(SourceScriptRanges, ' ', '~', false, 2);
    assert AvoidsBelow(SourceScriptRanges, ' ', '~', false, 3);
    assert AvoidsBelow(SourceScriptRanges, ' ', '~', false, 4);
    assert AvoidsBelow(SourceScriptRanges, ' ', '~', false, 5);
    assert AvoidsBelow(SourceScriptRanges, ' ', '~', false, 6);
    assert AvoidsBelow(SourceScriptRanges, ' ', '~', false, 7);
    assert AvoidsBelow(SourceScriptRanges, ' ', '~', false, 8);
    assert AvoidsBelow(SourceScriptRanges, ' ', '~', false, 9);
    assert AvoidsBelow(SourceScriptRanges, ' ', '~', false, 10);
    assert AvoidsBelow(SourceScriptRanges, ' ', '~', false, 11);
    assert AvoidsBelow(SourceScriptRanges, ' ', '~', false, 12);
    assert AvoidsBelow(SourceScriptRanges, ' ', '~', false, 13);
    NoHitBelow(SourceScriptRanges, EnglishSample, ' ', '~', false, |SourceScriptRanges|);
    NoScriptMeansEnglish(EnglishSample);
  }
}
