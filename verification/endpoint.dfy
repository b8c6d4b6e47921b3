/** The detection service's request URLs, as the two upload variants build
    them, and the reading of a URL into its path and query parameters, which
    is what the service sees of it. */
module Endpoint {
  import opened Wrappers
  import opened Text

  /** The detection service's origin, with the trailing slash. */
  const ServiceBase: string := "https://detect.roboflow.com/"

  /** The main page's settings: a model identifier such as `name/8`, and a key. */
  datatype PageConfig = PageConfig(model: string, apiKey: string)

  /** The upload section's settings: model, version and key held separately. */
  datatype SectionConfig = SectionConfig(model: string, version: string, apiKey: string)

  /** The main page's request URL: the model path and the key, nothing else. */
  function PageUrl(cfg: PageConfig): (u: string)
    ensures u == EncodeUrl(ServiceBase + cfg.model, [Param("api_key", cfg.apiKey)])
  {
    PageUrlEncodes(cfg.model, cfg.apiKey);
    ServiceBase + cfg.model + "?api_key=" + cfg.apiKey
  }

  /** The upload section's endpoint without a query. */
  function SectionEndpoint(cfg: SectionConfig): string {
    ServiceBase + cfg.model + "/" + cfg.version
  }

  /** The upload section's request URL: key, then a 75% confidence and a 50%
      overlap threshold. */
  function SectionUrl(cfg: SectionConfig): (u: string)
    ensures u == EncodeUrl(SectionEndpoint(cfg), SectionParams(cfg.apiKey))
  {
    SectionUrlEncodes(SectionEndpoint(cfg), cfg.apiKey);
    SectionEndpoint(cfg) + "?api_key=" + cfg.apiKey + "&confidence=75&overlap=50"
  }

  /** One `name=value` pair of a query string. */
  datatype Param = Param(name: string, value: string)

  /** A URL as the service reads it: a path and its query's pairs. `ParseUrl`
      does none of the URL parser's normalisation (control characters
      dropped or escaped, `\` read as `/`, dot segments resolved), no
      fragment handling and no percent-decoding, so it is the service's
      reading only of URLs whose path is `PathText` and whose names and
      values are `Plain`. */
  datatype Url = Url(path: string, params: seq<Param>)

  /** `name=value` split at the first `=`; a pair without one has an empty value. */
  function ParseParam(pair: string): (p: Param)
    ensures '=' !in p.name
    ensures '=' in pair ==> pair == p.name + "=" + p.value
    ensures '=' !in pair ==> p == Param(pair, "")
  {
    match IndexOf(pair, '=')
    case None => Param(pair, "")
    case Some(i) =>
      assert pair == pair[..i] + "=" + pair[i + 1..];
      Param(pair[..i], pair[i + 1..])
  }

  /** Each pair read in order. */
  function ParsePairs(pairs: seq<string>): (ps: seq<Param>)
    ensures |ps| == |pairs|
    ensures forall k :: 0 <= k < |pairs| ==> ps[k] == ParseParam(pairs[k])
  {
    seq(|pairs|, k requires 0 <= k < |pairs| => ParseParam(pairs[k]))
  }

  /** The path is everything before the first `?`; the parameters are the
      `&`-separated pairs between it and the next `?`. */
  function ParseUrl(s: string): (u: Url)
    ensures '?' !in u.path
    ensures '?' !in s ==> u == Url(s, [])
  {
    var parts := Split(s, '?');
    var query := if |parts| >= 2 then parts[1] else "";
    Url(parts[0], if query == "" then [] else ParsePairs(Split(query, '&')))
  }

  /** A name or value that a query string carries verbatim: no delimiter of
      the query (`?`, `&`, `=`), no fragment start (`#`), nothing a server
      decodes (`%` escapes, `+`), and no space or control character, which
      the URL parser drops, strips or escapes. */
  predicate Plain(v: string) {
    && '?' !in v && '&' !in v && '=' !in v && '#' !in v && '%' !in v && '+' !in v
    && forall i :: 0 <= i < |v| ==> v[i] > ' '
  }

  /** A model or version the URL parser keeps as written in the path: nothing
      that ends the path (`?`, `#`), no `%` escape, no `\` (read as `/`), no
      `.` (which could form a dot segment), and no space or control
      character. */
  predicate PathText(v: string) {
    && '?' !in v && '#' !in v && '%' !in v && '\\' !in v && '.' !in v
    && forall i :: 0 <= i < |v| ==> v[i] > ' '
  }

  /** `name=value`. */
  function PairText(p: Param): string {
    p.name + "=" + p.value
  }

  /** Every pair as text, in order. */
  function PairTexts(params: seq<Param>): (texts: seq<string>)
    ensures |texts| == |params|
    ensures forall k :: 0 <= k < |params| ==> texts[k] == PairText(params[k])
  {
    seq(|params|, k requires 0 <= k < |params| => PairText(params[k]))
  }

  /** The reference encoder: `path?n1=v1&n2=v2…`. */
  function EncodeUrl(path: string, params: seq<Param>): string
    requires |params| >= 1
  {
    path + "?" + Join(PairTexts(params), '&')
  }

  lemma ParsePair(p: Param)
    requires '=' !in p.name
    ensures ParseParam(PairText(p)) == p
  {
    var pair := PairText(p);
    assert pair[..|p.name|] == p.name;
    IndexOfUnique(pair, '=', |p.name|);
    assert pair[|p.name| + 1..] == p.value;
  }

  /** A URL with a single `?` reads as its path and its query's pairs. */
  lemma ParseUrlAt(path: string, query: string)
    requires '?' !in path && '?' !in query && query != ""
    ensures ParseUrl(path + ['?'] + query) == Url(path, ParsePairs(Split(query, '&')))
  {
    SplitPeel(path, '?', query);
    SplitNoSeparator(query, '?');
    assert Split(path + ['?'] + query, '?') == [path, query];
  }

  /** Round trip: reading an encoded URL gives back its path and its
      parameters, in order, when none of them holds a delimiter. */
  lemma ParseEncoded(path: string, params: seq<Param>)
    requires '?' !in path && |params| >= 1
    requires forall k :: 0 <= k < |params| ==> Plain(params[k].name) && Plain(params[k].value)
    ensures ParseUrl(EncodeUrl(path, params)) == Url(path, params)
  {
    var texts := PairTexts(params);
    var query := Join(texts, '&');
    forall k | 0 <= k < |texts|
      ensures '?' !in texts[k] && '&' !in texts[k] && ParseParam(texts[k]) == params[k]
    {
      ParsePair(params[k]);
    }
    JoinWithout(texts, '&', '?');
    assert query != "" by { JoinKeepsFirst(texts, '&'); }
    assert EncodeUrl(path, params) == path + ['?'] + query;
    ParseUrlAt(path, query);
    JoinSplit(texts, '&');
    assert ParsePairs(texts) == params;
  }

  lemma {:induction false} JoinWithout(parts: seq<string>, sep: char, c: char)
    requires |parts| >= 1 && c != sep
    requires forall k :: 0 <= k < |parts| ==> c !in parts[k]
    ensures c !in Join(parts, sep)
  {
    if |parts| > 1 {
      JoinWithout(parts[1..], sep, c);
    }
  }

  lemma JoinKeepsFirst(parts: seq<string>, sep: char)
    requires |parts| >= 1
    ensures |Join(parts, sep)| >= |parts[0]|
  {
  }

  /** The main page's URL addresses `ServiceBase + model` and carries exactly
      one parameter, `api_key`, holding the configured key. */
  lemma PageUrlMeaning(cfg: PageConfig)
    requires PathText(cfg.model) && Plain(cfg.apiKey)
    ensures ParseUrl(PageUrl(cfg)) == Url(ServiceBase + cfg.model, [Param("api_key", cfg.apiKey)])
  {
    WordPlain("api_key");
    ParseEncoded(ServiceBase + cfg.model, [Param("api_key", cfg.apiKey)]);
  }

  lemma PageUrlEncodes(model: string, apiKey: string)
    ensures ServiceBase + model + "?api_key=" + apiKey
         == EncodeUrl(ServiceBase + model, [Param("api_key", apiKey)])
  {
    var texts := PairTexts([Param("api_key", apiKey)]);
    assert texts == ["api_key" + "=" + apiKey];
    assert "api_key" + "=" == "api_key=";
    SectionLiterals();
    var e := ServiceBase + model;
    assert e + ("?" + "api_key=") + apiKey == e + "?" + ("api_key=" + apiKey);
  }

  /** The upload section's URL addresses `ServiceBase + model/version` and
      carries `api_key`, `confidence=75` and `overlap=50`, in that order. */
  lemma SectionUrlMeaning(cfg: SectionConfig)
    requires PathText(cfg.model) && PathText(cfg.version) && Plain(cfg.apiKey)
    ensures ParseUrl(SectionUrl(cfg)) == Url(SectionEndpoint(cfg),
      [Param("api_key", cfg.apiKey), Param("confidence", "75"), Param("overlap", "50")])
  {
    var params := SectionParams(cfg.apiKey);
    assert '?' !in SectionEndpoint(cfg);
    SectionParamsPlain(cfg.apiKey);
    ParseEncoded(SectionEndpoint(cfg), params);
  }

  /** The upload section's parameters, in the order its URL lists them. */
  function SectionParams(apiKey: string): seq<Param> {
    [Param("api_key", apiKey), Param("confidence", "75"), Param("overlap", "50")]
  }

  lemma SectionParamsPlain(apiKey: string)
    requires Plain(apiKey)
    ensures forall k :: 0 <= k < 3 ==> Plain(SectionParams(apiKey)[k].name) && Plain(SectionParams(apiKey)[k].value)
  {
    SectionNamesPlain();
  }

  lemma SectionNamesPlain()
    ensures Plain("api_key") && Plain("confidence") && Plain("75")
    ensures Plain("overlap") && Plain("50")
  {
    WordPlain("api_key");
    WordPlain("confidence");
    WordPlain("75");
    WordPlain("overlap");
    WordPlain("50");
  }

  /** Lower-case letters, digits and `_`. */
  predicate Word(v: string) {
    forall i :: 0 <= i < |v| ==> 'a' <= v[i] <= 'z' || '0' <= v[i] <= '9' || v[i] == '_'
  }

  lemma WordPlain(v: string)
    requires Word(v)
    ensures Plain(v)
  {
  }

  lemma SectionUrlEncodes(endpoint: string, apiKey: string)
    ensures endpoint + "?api_key=" + apiKey + "&confidence=75&overlap=50"
         == EncodeUrl(endpoint, SectionParams(apiKey))
  {
    SectionPairTexts(apiKey);
    JoinThree("api_key=" + apiKey, "confidence=75", "overlap=50", '&');
    SectionLiterals();
    Regroup(endpoint, "?", "api_key=", apiKey, "&", "confidence=75", "overlap=50");
  }

  lemma SectionLiterals()
    ensures "?api_key=" == "?" + "api_key="
    ensures "&confidence=75&overlap=50" == "&" + "confidence=75" + "&" + "overlap=50"
  {
  }

  lemma Regroup(e: string, q: string, x: string, k: string, amp: string, y: string, z: string)
    ensures e + (q + x) + k + (amp + y + amp + z) == e + q + (x + k + amp + y + amp + z)
  {
  }

  lemma SectionPairTexts(apiKey: string)
    ensures PairTexts(SectionParams(apiKey)) == ["api_key=" + apiKey, "confidence=75", "overlap=50"]
  {
    var texts := PairTexts(SectionParams(apiKey));
    assert |texts| == 3;
    assert texts[0] == "api_key" + "=" + apiKey == "api_key=" + apiKey;
    assert texts[1] == "confidence" + "=" + "75" == "confidence=75";
    assert texts[2] == "overlap" + "=" + "50" == "overlap=50";
  }

  lemma JoinThree(a: string, b: string, c: string, sep: char)
    ensures Join([a, b, c], sep) == a + [sep] + b + [sep] + c
  {
    assert [a, b, c][1..] == [b, c];
    assert [b, c][1..] == [c];
    assert Join([b, c], sep) == b + [sep] + c;
    assert Join([a, b, c], sep) == a + [sep] + (b + [sep] + c);
  }
}
