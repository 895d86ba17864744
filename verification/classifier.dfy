/**
 * `parse_gpu_details`: reads the chip manufacturer and a short model name
 * out of a raw product name, by ordered keyword search.
 */
module Classifier {
  import opened Wrappers
  import opened Text

  /** The sentinel for a manufacturer that no keyword identified. */
  const Unknown: string := "Unknown"

  /** Tried in this order; the first one mentioned wins. */
  const Manufacturers: seq<string> := ["NVIDIA", "AMD", "Intel"]

  /** Product-family keywords, tried in this order. */
  const ModelKeywords: seq<string> := ["GeForce RTX", "Radeon RX", "Intel Arc"]

  /** Names longer than this take the long-name fallback; models longer than this are cut. */
  const MaxModelLen: nat := 100

  /** The length a model name that is too long is cut to. */
  const CutModelLen: nat := 99

  datatype GpuDetails = GpuDetails(brand: string, manufacturer: string, modelName: string)

  /** A classifier of (full name, brand) pairs, such as `ParseGpuDetails`. */
  type Classification = (string, string) -> GpuDetails

  /** `word.lower() in full_name.lower()`: a case-insensitive substring test. */
  predicate Mentions(fullName: string, word: string)
    ensures Mentions(fullName, word) <==>
      exists j :: 0 <= j <= |fullName| && OccursAt(Lower(fullName), Lower(word), j)
  {
    Contains(Lower(fullName), Lower(word))
  }

  /** The index of the first word of `words` that `fullName` mentions. */
  function FirstMentioned(words: seq<string>, fullName: string): (r: Option<nat>)
    ensures r.Some? ==> r.value < |words| && Mentions(fullName, words[r.value])
    ensures r.Some? ==> forall k :: 0 <= k < r.value ==> !Mentions(fullName, words[k])
    ensures r.None? ==> forall k :: 0 <= k < |words| ==> !Mentions(fullName, words[k])
  {
    if words == [] then None
    else if Mentions(fullName, words[0]) then Some(0)
    else
      match FirstMentioned(words[1..], fullName)
      case Some(k) => Some(k + 1)
      case None => None
  }

  /** The manufacturer: the first of `Manufacturers` mentioned, else `Unknown`. */
  function DetectManufacturer(fullName: string): (m: string)
    ensures m == Unknown || m in Manufacturers
    ensures m == Unknown <==> forall k :: 0 <= k < |Manufacturers| ==> !Mentions(fullName, Manufacturers[k])
    ensures forall k :: 0 <= k < |Manufacturers| ==>
      (m == Manufacturers[k] <==>
        Mentions(fullName, Manufacturers[k]) && forall j :: 0 <= j < k ==> !Mentions(fullName, Manufacturers[j]))
  {
    match FirstMentioned(Manufacturers, fullName)
    case Some(k) => Manufacturers[k]
    case None => Unknown
  }

  /** Whether the tokens carry a "Ti" or "XT" suffix, as whole tokens. */
  predicate HasSuffixToken(parts: seq<string>) {
    "Ti" in parts || "XT" in parts
  }

  /** How many tokens a keyword model keeps. */
  function KeptTokens(parts: seq<string>): nat {
    if HasSuffixToken(parts) then 4 else 3
  }

  /** Where `keyword` first occurs in `fullName`, ignoring case. */
  function KeywordStart(fullName: string, keyword: string): (i: nat)
    requires Mentions(fullName, keyword)
    ensures i + |keyword| <= |fullName|
    ensures OccursAt(Lower(fullName), Lower(keyword), i)
    ensures forall j :: 0 <= j < i ==> !OccursAt(Lower(fullName), Lower(keyword), j)
  {
    Find(Lower(fullName), Lower(keyword)).value
  }

  /**
   * The model for a name that mentions `keyword`: the first three tokens of
   * the name from the keyword on, or four when "Ti" or "XT" is among them.
   */
  function KeywordModel(fullName: string, keyword: string): (r: string)
    requires Mentions(fullName, keyword)
    ensures var parts := Split(fullName[KeywordStart(fullName, keyword)..]);
      Split(r) == Take(parts, KeptTokens(parts))
  {
    var parts := Split(fullName[KeywordStart(fullName, keyword)..]);
    SplitJoin(Take(parts, KeptTokens(parts)));
    Join(Take(parts, KeptTokens(parts)))
  }

  /** The tokens left once `brand`, then `manufacturer`, are deleted from the name. */
  function FallbackTokens(fullName: string, brand: string, manufacturer: string): seq<string> {
    Split(Strip(RemoveAll(Strip(RemoveAll(fullName, brand)), manufacturer)))
  }

  /** The model for a long name no keyword matched: the first four of its remaining tokens `parts`. */
  function FallbackModel(parts: seq<string>): (r: string)
    requires forall k :: 0 <= k < |parts| ==> |parts[k]| > 0 && NoSpace(parts[k])
    ensures Split(r) == Take(parts, 4)
  {
    SplitJoin(Take(parts, 4));
    Join(Take(parts, 4))
  }

  /** The final length cap: a model longer than 100 characters keeps its first 99. */
  function CapLength(model: string): (r: string)
    ensures |r| <= MaxModelLen
    ensures |model| <= MaxModelLen ==> r == model
    ensures |model| > MaxModelLen ==> |r| == CutModelLen && r == model[..CutModelLen]
  {
    if |model| > MaxModelLen then model[..CutModelLen] else model
  }

  /**
   * The model name before the length cap: a keyword model, the fallback for
   * a long name, or the name itself. The first two keep at most four tokens.
   */
  function UncappedModel(fullName: string, brand: string, manufacturer: string): (r: string)
    ensures FirstMentioned(ModelKeywords, fullName).None? && |fullName| <= MaxModelLen ==> r == fullName
    ensures FirstMentioned(ModelKeywords, fullName).Some? || |fullName| > MaxModelLen ==> |Split(r)| <= 4
  {
    match FirstMentioned(ModelKeywords, fullName)
    case Some(k) => KeywordModel(fullName, ModelKeywords[k])
    case None =>
      if |fullName| > MaxModelLen then FallbackModel(FallbackTokens(fullName, brand, manufacturer))
      else fullName
  }

  /** `parse_gpu_details(full_name, brand)`. */
  function ParseGpuDetails(fullName: string, brand: string): (r: GpuDetails)
    ensures r.brand == brand
    ensures r.manufacturer == DetectManufacturer(fullName)
    ensures |r.modelName| <= MaxModelLen
  {
    var manufacturer := DetectManufacturer(fullName);
    GpuDetails(brand, manufacturer, CapLength(UncappedModel(fullName, brand, manufacturer)))
  }

  /**
   * A name that mentions family keyword `k` and none before it gets, before
   * the cap, the first three (or four, with "Ti"/"XT") tokens of the name from
   * the keyword's first case-insensitive occurrence on.
   */
  lemma ParseKeywordModel(fullName: string, brand: string, k: nat)
    requires k < |ModelKeywords| && Mentions(fullName, ModelKeywords[k])
    requires forall j :: 0 <= j < k ==> !Mentions(fullName, ModelKeywords[j])
    ensures var parts := Split(fullName[KeywordStart(fullName, ModelKeywords[k])..]);
      var model := Join(Take(parts, KeptTokens(parts)));
      && ParseGpuDetails(fullName, brand).modelName == CapLength(model)
      && (|model| <= MaxModelLen ==> Split(ParseGpuDetails(fullName, brand).modelName) == Take(parts, KeptTokens(parts)))
  {
    var found := FirstMentioned(ModelKeywords, fullName);
    assert found == Some(k);
  }

  /** A name of at most 100 characters that no keyword matches is its own model name. */
  lemma ParseShortNameIsModel(fullName: string, brand: string)
    requires forall j :: 0 <= j < |ModelKeywords| ==> !Mentions(fullName, ModelKeywords[j])
    requires |fullName| <= MaxModelLen
    ensures ParseGpuDetails(fullName, brand).modelName == fullName
  {
  }

  /**
   * A name of more than 100 characters that no keyword matches is reduced to
   * the first four tokens left after deleting the brand and then the
   * manufacturer, cut to 99 characters if those still exceed 100.
   */
  lemma ParseLongNameFallback(fullName: string, brand: string)
    requires forall j :: 0 <= j < |ModelKeywords| ==> !Mentions(fullName, ModelKeywords[j])
    requires |fullName| > MaxModelLen
    ensures var parts := FallbackTokens(fullName, brand, DetectManufacturer(fullName));
      var model := Join(Take(parts, 4));
      && ParseGpuDetails(fullName, brand).modelName == CapLength(model)
      && (|model| <= MaxModelLen ==> Split(ParseGpuDetails(fullName, brand).modelName) == Take(parts, 4))
  {
    var manufacturer := DetectManufacturer(fullName);
    assert FirstMentioned(ModelKeywords, fullName).None?;
    assert UncappedModel(fullName, brand, manufacturer) == FallbackModel(FallbackTokens(fullName, brand, manufacturer));
  }

  /** When the cap cuts the model, exactly its first 99 characters remain. */
  lemma ParseCutKeepsPrefix(fullName: string, brand: string)
    requires |UncappedModel(fullName, brand, DetectManufacturer(fullName))| > MaxModelLen
    ensures var r := ParseGpuDetails(fullName, brand).modelName;
      |r| == CutModelLen && r == UncappedModel(fullName, brand, DetectManufacturer(fullName))[..CutModelLen]
  {
  }

  /**
   * The cap lets a model of exactly 100 characters through unchanged: a
   * 100-character name that no keyword matches is its own, 100-character,
   * model name.
   */
  lemma HundredCharModelKept(fullName: string, brand: string)
    requires forall j :: 0 <= j < |ModelKeywords| ==> !Mentions(fullName, ModelKeywords[j])
    requires |fullName| == MaxModelLen
    ensures ParseGpuDetails(fullName, brand).modelName == fullName
    ensures |ParseGpuDetails(fullName, brand).modelName| == MaxModelLen
  {
    ParseShortNameIsModel(fullName, brand);
  }

  /** Such names exist: a run of 100 'x' mentions no family keyword. */
  lemma HundredXsMentionNoKeyword(fullName: string)
    requires |fullName| == MaxModelLen && forall i :: 0 <= i < |fullName| ==> fullName[i] == 'x'
    ensures forall j :: 0 <= j < |ModelKeywords| ==> !Mentions(fullName, ModelKeywords[j])
  {
    forall k | 0 <= k < |ModelKeywords| ensures !Mentions(fullName, ModelKeywords[k]) {
      var low, key := Lower(fullName), Lower(ModelKeywords[k]);
      assert key[0] != 'x';
      forall j | 0 <= j <= |low| ensures !OccursAt(low, key, j) {
        if j < |low| {
          assert low[j] == 'x';
        }
      }
    }
  }

  /**
   * The worked example: "NVIDIA GeForce RTX 5070 Ti Founders Edition 12GB"
   * under the brand "NVIDIA". The name is passed as its first 18 characters
   * followed by `tail`, which keeps the solver from unfolding the classifier
   * on the whole literal.
   */
  lemma ParseExample(fullName: string, brand: string, tail: string)
    requires tail == " 5070 Ti Founders Edition 12GB"
    requires fullName == "NVIDIA GeForce RTX" + tail && brand == "NVIDIA"
    ensures ParseGpuDetails(fullName, brand) == GpuDetails("NVIDIA", "NVIDIA", "GeForce RTX 5070 Ti")
  {
    ExampleKeyword(fullName, tail);
    ExampleSuffix(fullName, tail);
    ExampleParts(fullName[7..], ["GeForce", "RTX", "5070", "Ti", "Founders", "Edition", "12GB"]);
    ExampleConclude(fullName, brand);
  }

  lemma ExampleSuffix(fullName: string, tail: string)
    requires tail == " 5070 Ti Founders Edition 12GB"
    requires fullName == "NVIDIA GeForce RTX" + tail
    ensures fullName[7..] == "GeForce RTX 5070 Ti Founders Edition 12GB"
  {
    assert fullName[7..] == "NVIDIA GeForce RTX"[7..] + tail;
    assert "NVIDIA GeForce RTX"[7..] == "GeForce RTX";
    assert "GeForce RTX" + tail == "GeForce RTX 5070 Ti Founders Edition 12GB";
  }

  lemma ExampleConclude(fullName: string, brand: string)
    requires brand == "NVIDIA" && DetectManufacturer(fullName) == "NVIDIA"
    requires Mentions(fullName, "GeForce RTX") && KeywordStart(fullName, "GeForce RTX") == 7
    requires var parts := Split(fullName[7..]); Join(Take(parts, KeptTokens(parts))) == "GeForce RTX 5070 Ti"
    ensures ParseGpuDetails(fullName, brand) == GpuDetails("NVIDIA", "NVIDIA", "GeForce RTX 5070 Ti")
  {
    ParseKeywordModel(fullName, brand, 0);
  }

  lemma ExampleParts(suffix: string, tokens: seq<string>)
    requires suffix == "GeForce RTX 5070 Ti Founders Edition 12GB"
    requires tokens == ["GeForce", "RTX", "5070", "Ti", "Founders", "Edition", "12GB"]
    ensures var parts := Split(suffix);
      Join(Take(parts, KeptTokens(parts))) == "GeForce RTX 5070 Ti"
  {
    ExampleTokens(tokens);
    SplitJoin(tokens);
    assert tokens[3] == "Ti";
    ExampleModel(Take(tokens, 4));
  }

  lemma ExampleKeyword(fullName: string, rest: string)
    requires fullName == "NVIDIA GeForce RTX" + rest
    ensures DetectManufacturer(fullName) == "NVIDIA"
    ensures Mentions(fullName, "GeForce RTX") && KeywordStart(fullName, "GeForce RTX") == 7
  {
    ExampleLowerPrefix(fullName, rest);
    ExampleOccurrences(Lower(fullName), Lower(rest));
    MentionsFirstAt(fullName, "NVIDIA", 0);
    ExampleNvidiaFirst(fullName);
    MentionsFirstAt(fullName, "GeForce RTX", 7);
  }

  lemma ExampleOccurrences(low: string, tail: string)
    requires low == "nvidia " + "geforce " + "rtx" + tail
    ensures OccursAt(low, Lower("NVIDIA"), 0)
    ensures OccursAt(low, Lower("GeForce RTX"), 7)
    ensures forall j | 0 <= j < 7 :: !OccursAt(low, Lower("GeForce RTX"), j)
  {
    assert low[0..6] == "nvidia";
    assert low[7..18] == "geforce rtx";
    forall j | 0 <= j < 7 ensures !OccursAt(low, Lower("GeForce RTX"), j) {
      assert low[j] == "nvidia "[j];
    }
  }

  lemma MentionsFirstAt(fullName: string, word: string, i: nat)
    requires OccursAt(Lower(fullName), Lower(word), i)
    requires forall j | 0 <= j < i :: !OccursAt(Lower(fullName), Lower(word), j)
    ensures Mentions(fullName, word) && KeywordStart(fullName, word) == i
  {
  }

  lemma ExampleNvidiaFirst(fullName: string)
    requires Mentions(fullName, "NVIDIA")
    ensures DetectManufacturer(fullName) == "NVIDIA"
  {
  }

  lemma ExampleLowerPrefix(fullName: string, rest: string)
    requires fullName == "NVIDIA GeForce RTX" + rest
    ensures Lower(fullName) == "nvidia " + "geforce " + "rtx" + Lower(rest)
  {
    assert fullName == "NVIDIA " + "GeForce " + "RTX" + rest;
    ExampleLowerPieces("NVIDIA ", "GeForce ", "RTX", rest);
    ExampleLowerWords();
  }

  lemma ExampleLowerPieces(a: string, b: string, c: string, rest: string)
    ensures Lower(a + b + c + rest) == Lower(a) + Lower(b) + Lower(c) + Lower(rest)
  {
    LowerAppend(a + b + c, rest);
    LowerAppend(a + b, c);
    LowerAppend(a, b);
  }

  lemma ExampleLowerWords()
    ensures Lower("NVIDIA ") == "nvidia " && Lower("GeForce ") == "geforce " && Lower("RTX") == "rtx"
  {
  }

  lemma ExampleTokens(ts: seq<string>)
    requires ts == ["GeForce", "RTX", "5070", "Ti", "Founders", "Edition", "12GB"]
    ensures Join(ts) == "GeForce RTX 5070 Ti Founders Edition 12GB"
  {
    assert ts[4..] == ["Founders", "Edition", "12GB"];
    ExampleTail(ts[4..]);
    assert ts[3..][1..] == ts[4..];
    assert ts[2..][1..] == ts[3..];
    assert ts[1..][1..] == ts[2..];
    JoinCons(ts[3..]);
    JoinCons(ts[2..]);
    JoinCons(ts[1..]);
    JoinCons(ts);
  }

  lemma ExampleTail(ts: seq<string>)
    requires ts == ["Founders", "Edition", "12GB"]
    ensures Join(ts) == "Founders Edition 12GB"
  {
    assert ts[2..] == ["12GB"];
    assert ts[1..][1..] == ts[2..];
    JoinCons(ts[1..]);
    JoinCons(ts);
  }

  lemma ExampleModel(ts: seq<string>)
    requires ts == ["GeForce", "RTX", "5070", "Ti"]
    ensures Join(ts) == "GeForce RTX 5070 Ti"
  {
    assert ts[3..] == ["Ti"];
    assert ts[2..][1..] == ts[3..];
    assert ts[1..][1..] == ts[2..];
    JoinCons(ts[2..]);
    JoinCons(ts[1..]);
    JoinCons(ts);
  }
}
