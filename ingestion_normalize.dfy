/**
 * The pure normalisers of the ingestion service: host comparison, page-type
 * guessing, the coercion of the page finder's and technology finder's
 * loosely shaped answers into strict records, confidence clamping and slugs.
 */
module IngestionNormalize {
  import opened Text
  import opened Js
  import opened Wrappers
  import opened Store
  import opened Lists

  // ---------------------------------------------------------------- hosts

  /** `stripWww`: lowercase the host and drop one leading `www.`. */
  function StripWww(host: string): (r: string)
    ensures IsLower(r)
    ensures EndsWith(ToLower(host), r)
    ensures |r| == |host| || |r| == |host| - 4
  {
    var lower := ToLower(host);
    ToLowerIsLower(host);
    if StartsWith(lower, "www.") then lower[4..] else lower
  }

  /** The `www.` prefix is case-insensitive and only one is removed. */
  lemma StripWwwPrefix(h: string)
    ensures StripWww("www." + h) == ToLower(h)
    ensures StripWww("WWW." + h) == ToLower(h)
  {
    WwwPrefixStripped("www.", h);
    WwwPrefixStripped("WWW.", h);
  }

  /** Any spelling of `www.` in any letter case is removed. */
  lemma WwwPrefixStripped(p: string, h: string)
    requires |p| == 4 && LowerChar(p[0]) == LowerChar(p[1]) == LowerChar(p[2]) == 'w' && p[3] == '.'
    ensures StripWww(p + h) == ToLower(h)
  {
    assert ToLower(p) == "www.";
    ToLowerAppend(p, h);
    var lower := "www." + ToLower(h);
    assert ToLower(p + h) == lower;
    assert lower[..4] == "www." && lower[4..] == ToLower(h);
  }

  /** Hosts that differ only in letter case compare equal after stripping. */
  lemma StripWwwCaseInsensitive(h: string)
    ensures StripWww(ToLower(h)) == StripWww(h)
  {
    ToLowerIsLower(h);
    ToLowerIsLower(ToLower(h));
  }

  // ------------------------------------------------------------ url types

  /** `String(value || "").toLowerCase()`, the key several normalisers look up. */
  function LowerKey(v: JsValue): (key: string)
    ensures !Truthy(v) ==> key == ""
  {
    ToLower(ToStr(Or(v, Str(""))))
  }

  /** The labels the table of `guessUrlType` lists. */
  predicate ListedLabel(key: string) {
    key in {
      "homepage", "home", "index", "about", "about-us", "contact", "contact-us", "pricing", "blog",
      "careers", "jobs", "docs", "documentation", "terms", "privacy"}
  }

  /** The fixed label table of `guessUrlType`. */
  function LabelType(key: string): UrlType {
    match key
    case "homepage" => HOMEPAGE
    case "home" => HOMEPAGE
    case "index" => HOMEPAGE
    case "about" => ABOUT
    case "about-us" => ABOUT
    case "contact" => CONTACT
    case "contact-us" => CONTACT
    case "pricing" => PRICING
    case "blog" => BLOG
    case "careers" => CAREERS
    case "jobs" => CAREERS
    case "docs" => DOCS
    case "documentation" => DOCS
    case "terms" => TERMS
    case "privacy" => PRIVACY
    case _ => OTHER
  }

  /**
   * The lower-case keys a plain object literal inherits from
   * `Object.prototype`: looking one of them up finds the `Object`
   * constructor or the prototype itself, both truthy, instead of a type.
   */
  predicate InheritedKey(key: string) {
    key == "constructor" || key == "__proto__"
  }

  /**
   * `guessUrlType`: exact, case-insensitive lookup of the label; OTHER when
   * unknown. An inherited key yields no URL type at all (None): the value
   * the lookup finds is handed on as the type.
   */
  function GuessUrlType(raw: JsValue): (t: Option<UrlType>)
    ensures t.None? <==> InheritedKey(LowerKey(raw))
    ensures t == Some(HOMEPAGE) <==> LowerKey(raw) in {"homepage", "home", "index"}
    ensures t == Some(OTHER) <==>
      !InheritedKey(LowerKey(raw)) && !ListedLabel(LowerKey(raw))
    ensures !Truthy(raw) ==> t == Some(OTHER)
  {
    var key := LowerKey(raw);
    if InheritedKey(key) then None else Some(LabelType(key))
  }

  lemma LowerKeyOfString(s: string)
    ensures LowerKey(Str(s)) == ToLower(s)
  {
  }

  /** Labels are matched whatever their letter case. */
  lemma GuessUrlTypeIgnoresCase(s: string)
    ensures GuessUrlType(Str(s)) == GuessUrlType(Str(ToLower(s)))
  {
    ToLowerIsLower(ToLower(s));
    LowerKeyOfString(s);
    LowerKeyOfString(ToLower(s));
  }

  // ---------------------------------------------------------------- pages

  datatype Page = Page(url: string, kind: JsValue)

  /** The list inside the page finder's answer: the answer itself, `.pages` or `.items`. */
  function PageList(result: JsValue): seq<JsValue> {
    if result.Arr? then result.items
    else if Get(result, "pages").Arr? then Get(result, "pages").items
    else if Get(result, "items").Arr? then Get(result, "items").items
    else []
  }

  /** One entry: its address under `url`, `href` or `link`, kept only when a non-empty string. */
  function PageOf(p: JsValue): (r: Option<Page>)
    ensures r.Some? ==> |r.value.url| > 0
  {
    var url := Or(Or(Get(p, "url"), Get(p, "href")), Get(p, "link"));
    var kind := Or(Or(Or(Get(p, "type"), Get(p, "category")), Get(p, "pageType")), Get(p, "purpose"));
    if url.Str? && |url.s| > 0 then Some(Page(url.s, kind)) else None
  }

  predicate HasUrl(p: Page) { |p.url| > 0 }

  /** `normalizePagesResult` */
  function NormalizePagesResult(result: JsValue): (pages: seq<Page>)
    ensures |pages| <= |PageList(result)|
    ensures forall i :: 0 <= i < |pages| ==> |pages[i].url| > 0
  {
    KeepSomeAll(PageList(result), PageOf, HasUrl);
    KeepSome(PageList(result), PageOf)
  }

  /** A page is reported exactly when some entry of the finder's list yields it. */
  lemma NormalizePagesMembers(result: JsValue, p: Page)
    ensures p in NormalizePagesResult(result) <==> exists j :: 0 <= j < |PageList(result)| && PageOf(PageList(result)[j]) == Some(p)
  {
    KeepSomeMembers(PageList(result), PageOf, p);
  }

  // ----------------------------------------------------------- confidence

  function Clamp01(x: real): real {
    if x < 0.0 then 0.0 else if x > 1.0 then 1.0 else x
  }

  /**
   * `clampConfidence`: nothing for null, undefined or a non-finite number;
   * otherwise the number, divided by 100 when above 1, clamped to [0, 1].
   */
  function ClampConfidence(v: JsValue): (c: Option<real>)
    ensures c.None? <==> Nullish(v) || !ToNumber(v).Finite?
    ensures c.Some? ==> 0.0 <= c.value <= 1.0
    ensures c.Some? && 0.0 <= ToNumber(v).r <= 1.0 ==> c.value == ToNumber(v).r
    ensures c.Some? && 1.0 < ToNumber(v).r <= 100.0 ==> c.value == ToNumber(v).r / 100.0
    ensures c.Some? && ToNumber(v).r < 0.0 ==> c.value == 0.0
  {
    if Nullish(v) then None
    else match ToNumber(v)
      case Finite(x) => Some(Clamp01(if x > 1.0 then x / 100.0 else x))
      case _ => None
  }

  /** Percent scores become fractions, and a value just above 1 is divided as well. */
  lemma ClampConfidenceExamples()
    ensures ClampConfidence(Number(Finite(85.0))) == Some(0.85)
    ensures ClampConfidence(Number(Finite(1.4))) == Some(0.014)
    ensures ClampConfidence(Number(Finite(-0.2))) == Some(0.0)
    ensures ClampConfidence(Null) == None
  {
  }

  /** A numeric string is read as its number first. */
  lemma ClampConfidenceOfDigits(n: nat)
    ensures ClampConfidence(Str(NatToStr(n))) == Some(if n == 0 then 0.0 else if n == 1 then 1.0 else Clamp01(n as real / 100.0))
  {
    ParseNatToStr(n);
  }

  // ---------------------------------------------------------------- slugs

  predicate IsSlugChar(c: char) { 'a' <= c <= 'z' || '0' <= c <= '9' }

  predicate NoDoubleDash(s: string) {
    forall i :: 0 <= i < |s| - 1 ==> !(s[i] == '-' && s[i + 1] == '-')
  }

  /** What `slugify` promises: `[a-z0-9-]` only, no `-` at either end, no `--`. */
  predicate IsSlug(s: string) {
    && (forall i :: 0 <= i < |s| ==> IsSlugChar(s[i]) || s[i] == '-')
    && (s == [] || (s[0] != '-' && s[|s| - 1] != '-'))
    && NoDoubleDash(s)
  }

  function DropNonSlug(s: string): (r: string)
    ensures |r| <= |s| && r == s[|s| - |r|..]
    ensures r == [] || IsSlugChar(r[0])
  {
    if s != [] && !IsSlugChar(s[0]) then
      var r := DropNonSlug(s[1..]);
      assert s[1..][|s| - 1 - |r|..] == s[|s| - |r|..];
      r
    else s
  }

  /** `.replace(/[^a-z0-9]+/g, "-")`: every maximal run of other characters becomes one `-`. */
  function CollapseRuns(s: string): (r: string)
    ensures forall i :: 0 <= i < |r| ==> IsSlugChar(r[i]) || r[i] == '-'
    ensures NoDoubleDash(r)
    ensures r == [] <==> s == []
    ensures s != [] && IsSlugChar(s[0]) ==> r[0] == s[0]
    ensures s != [] && !IsSlugChar(s[0]) ==> r[0] == '-'
    decreases |s|
  {
    if s == [] then []
    else if IsSlugChar(s[0]) then [s[0]] + CollapseRuns(s[1..])
    else
      var rest := DropNonSlug(s);
      var tail := CollapseRuns(rest);
      assert tail == [] || tail[0] != '-';
      ['-'] + tail
  }

  /** `.replace(/(^-|-$)/g, "")`: drop one leading and one trailing `-`. */
  function StripDashes(t: string): (r: string)
    requires forall i :: 0 <= i < |t| ==> IsSlugChar(t[i]) || t[i] == '-'
    requires NoDoubleDash(t)
    ensures IsSlug(r)
    ensures t == [] || (t[0] != '-' && t[|t| - 1] != '-') ==> r == t
  {
    var a := if |t| > 0 && t[0] == '-' then t[1..] else t;
    var r := if |a| > 0 && a[|a| - 1] == '-' then a[..|a| - 1] else a;
    SlugPiece(t, r, |t| - |a|);
    r
  }

  /** A piece of a string of slug characters without `--` has the same two properties. */
  lemma SlugPiece(c: string, r: string, k: int)
    requires OccursAt(c, r, k)
    requires forall i :: 0 <= i < |c| ==> IsSlugChar(c[i]) || c[i] == '-'
    requires NoDoubleDash(c)
    ensures forall i :: 0 <= i < |r| ==> IsSlugChar(r[i]) || r[i] == '-'
    ensures NoDoubleDash(r)
  {
    assert forall i :: 0 <= i < |r| ==> r[i] == c[k + i];
  }

  /** `slugify` on the text once `String(value || "")` has produced it. */
  function SlugifyText(s: string): (r: string)
    ensures IsSlug(r)
  {
    StripDashes(CollapseRuns(ToLower(Trim(s))))
  }

  /** `slugify` */
  function Slugify(v: JsValue): (r: string)
    ensures IsSlug(r)
  {
    SlugifyText(ToStr(Or(v, Str(""))))
  }

  lemma {:induction false} CollapseRunsOfSlug(s: string)
    requires forall i :: 0 <= i < |s| ==> IsSlugChar(s[i]) || s[i] == '-'
    requires NoDoubleDash(s)
    requires s == [] || s[|s| - 1] != '-'
    ensures CollapseRuns(s) == s
    decreases |s|
  {
    if s != [] {
      var t := s[1..];
      assert forall i :: 0 <= i < |t| ==> t[i] == s[i + 1];
      CollapseRunsOfSlug(t);
      if !IsSlugChar(s[0]) {
        assert |s| >= 2 && IsSlugChar(s[1]);
        assert DropNonSlug(s) == t;
      }
    }
  }

  /** A slug is its own slug. */
  lemma SlugifyTextOfSlug(s: string)
    requires IsSlug(s)
    ensures SlugifyText(s) == s
  {
    SlugTrimLower(s);
    CollapseRunsOfSlug(s);
    var c := CollapseRuns(ToLower(Trim(s)));
    assert c == s;
    assert StripDashes(c) == c;
  }

  lemma SlugTrimLower(s: string)
    requires IsSlug(s)
    ensures ToLower(Trim(s)) == s
  {
    SlugTrim(s);
    SlugLower(s);
  }

  lemma SlugTrim(s: string)
    requires IsSlug(s)
    ensures Trim(s) == s
  {
    assert s == [] || (!IsSpace(s[0]) && !IsSpace(s[|s| - 1]));
    TrimNoSpace(s);
  }

  lemma SlugLower(s: string)
    requires IsSlug(s)
    ensures ToLower(s) == s
  {
    assert IsLower(s);
    ToLowerIsLower(s);
  }

  /** `slugify` is idempotent. */
  lemma SlugifyIdempotent(v: JsValue)
    ensures Slugify(Str(Slugify(v))) == Slugify(v)
  {
    var r := Slugify(v);
    TextOfString(r);
    SlugifyTextOfSlug(r);
  }

  /** `String(s || "")` is `s` itself for a string `s`. */
  lemma TextOfString(s: string)
    ensures ToStr(Or(Str(s), Str(""))) == s
  {
    if s == "" {
      assert Or(Str(s), Str("")) == Str("");
    }
  }

  // ---------------------------------------------------------- technologies

  datatype Tech = Tech(slug: string, name: string, websiteUrl: Option<string>, confidence: Option<real>)

  predicate WellFormedTech(t: Tech) {
    t.slug != "" && IsSlug(t.slug)
    && (t.confidence.Some? ==> 0.0 <= t.confidence.value <= 1.0)
  }

  /** The list inside the technology finder's answer: itself, `.technologies` or `.items`. */
  function TechList(result: JsValue): seq<JsValue> {
    if result.Arr? then result.items
    else if Get(result, "technologies").Arr? then Get(result, "technologies").items
    else if Get(result, "items").Arr? then Get(result, "items").items
    else []
  }

  /** One entry, dropped when it has no usable slug or no name. */
  function TechOf(t: JsValue): (r: Option<Tech>)
    ensures r.Some? ==> WellFormedTech(r.value)
  {
    var name := Or(Or(Or(Get(t, "name"), Get(t, "technology")), Get(t, "slug")), Get(t, "id"));
    var slug := Slugify(Or(Or(Get(t, "slug"), Get(t, "id")), name));
    var websiteUrl := Or(Or(Get(t, "websiteUrl"), Get(t, "website")), Get(t, "url"));
    var confidence := ClampConfidence(Or(Or(Get(t, "confidence"), Get(t, "confidenceScore")), Get(t, "score")));
    if slug == "" || !Truthy(name) then None
    else Some(Tech(slug, ToStr(name), if Truthy(websiteUrl) then Some(ToStr(websiteUrl)) else None, confidence))
  }

  /** `normalizeTechnologiesResult` */
  function NormalizeTechnologiesResult(result: JsValue): (techs: seq<Tech>)
    ensures |techs| <= |TechList(result)|
    ensures forall i :: 0 <= i < |techs| ==> WellFormedTech(techs[i])
  {
    KeepSomeAll(TechList(result), TechOf, WellFormedTech);
    KeepSome(TechList(result), TechOf)
  }

  /** A technology is reported exactly when some entry of the finder's list yields it. */
  lemma NormalizeTechnologiesMembers(result: JsValue, t: Tech)
    ensures t in NormalizeTechnologiesResult(result) <==> exists j :: 0 <= j < |TechList(result)| && TechOf(TechList(result)[j]) == Some(t)
  {
    KeepSomeMembers(TechList(result), TechOf, t);
  }

  datatype TechScope = PER_URL | HOMEPAGE_SCOPE

  const PerUrlSpellings: set<string> := {"per_url", "per-url", "perurl", "url", "urls", "all"}

  /** `normalizeTechnologiesScope`: PER_URL for the listed spellings, otherwise the homepage scope. */
  function NormalizeTechnologiesScope(v: JsValue): (scope: TechScope)
    ensures scope == PER_URL <==> ToLower(Trim(ToStr(Or(v, Str(""))))) in PerUrlSpellings
    ensures !Truthy(v) ==> scope == HOMEPAGE_SCOPE
  {
    var key := ToLower(Trim(ToStr(Or(v, Str("")))));
    if key in PerUrlSpellings then PER_URL else HOMEPAGE_SCOPE
  }

  predicate MentionsShopify(t: Tech) {
    t.slug == "shopify" || Contains(ToLower(t.name), "shopify")
  }

  /** `isShopifyFromTechnologies` */
  function IsShopifyFromTechnologies(techs: seq<Tech>): (b: bool)
    ensures b <==> exists i :: 0 <= i < |techs| && MentionsShopify(techs[i])
  {
    if techs == [] then false
    else
      assert forall i :: 1 <= i < |techs| ==> techs[i] == techs[1..][i - 1];
      MentionsShopify(techs[0]) || IsShopifyFromTechnologies(techs[1..])
  }

  function NonEmptySlugs(techs: seq<Tech>): (r: seq<string>)
    ensures |r| <= |techs|
    ensures forall i :: 0 <= i < |r| ==> r[i] != ""
    ensures (forall i :: 0 <= i < |techs| ==> techs[i].slug != "") ==>
              |r| == |techs| && forall i :: 0 <= i < |r| ==> r[i] == techs[i].slug
  {
    if techs == [] then []
    else if techs[0].slug != "" then [techs[0].slug] + NonEmptySlugs(techs[1..])
    else NonEmptySlugs(techs[1..])
  }

  /** `pickTechnologiesForPagesFinder`: the first `limit` non-empty slugs (50 by default). */
  function PickTechnologiesForPagesFinder(techs: seq<Tech>, limit: nat := 50): (slugs: seq<string>)
    ensures |slugs| == if |NonEmptySlugs(techs)| < limit then |NonEmptySlugs(techs)| else limit
    ensures slugs == NonEmptySlugs(techs)[..|slugs|]
  {
    var all := NonEmptySlugs(techs);
    if |all| <= limit then all else all[..limit]
  }

  // ---------------------------------------------------------------- files

  /** `extensionForContentType` of the ingestion service: png, then jpeg/jpg, else bin. */
  function ExtensionForContentType(contentType: JsValue): (ext: string)
    ensures var v := ToLower(ToStr(Or(contentType, Str(""))));
      && (ext == "png" <==> Contains(v, "png"))
      && (ext == "jpg" <==> !Contains(v, "png") && (Contains(v, "jpeg") || Contains(v, "jpg")))
      && (ext == "bin" <==> !Contains(v, "png") && !Contains(v, "jpeg") && !Contains(v, "jpg"))
  {
    var v := ToLower(ToStr(Or(contentType, Str(""))));
    if Contains(v, "png") then "png"
    else if Contains(v, "jpeg") || Contains(v, "jpg") then "jpg"
    else "bin"
  }
}
