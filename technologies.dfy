/**
 * The technology service (`src/services/technologies.js`): validating a
 * technology payload, upserting the row by slug, and storing its icon once.
 * The icon download and the file write are one external step whose outcome
 * is a parameter: either the icon's content type, or a failure of either.
 */
module Technologies {
  import opened Wrappers
  import opened Text
  import opened Js
  import opened Store
  import Crawls
  import Storage

  /** `extensionForContentType` of this service: svg, then png, then jpeg/jpg, then webp, else bin. */
  function ExtensionForContentType(contentType: JsValue): (ext: string)
    ensures var v := ToLower(ToStr(Or(contentType, Str(""))));
      && (ext == "svg" <==> Contains(v, "svg"))
      && (ext == "png" <==> !Contains(v, "svg") && Contains(v, "png"))
      && (ext == "jpg" <==> !Contains(v, "svg") && !Contains(v, "png") && (Contains(v, "jpeg") || Contains(v, "jpg")))
      && (ext == "webp" <==> !Contains(v, "svg") && !Contains(v, "png") && !Contains(v, "jpeg") && !Contains(v, "jpg")
                             && Contains(v, "webp"))
      && (ext == "bin" <==> !Contains(v, "svg") && !Contains(v, "png") && !Contains(v, "jpeg") && !Contains(v, "jpg")
                            && !Contains(v, "webp"))
  {
    var v := ToLower(ToStr(Or(contentType, Str(""))));
    if Contains(v, "svg") then "svg"
    else if Contains(v, "png") then "png"
    else if Contains(v, "jpeg") || Contains(v, "jpg") then "jpg"
    else if Contains(v, "webp") then "webp"
    else "bin"
  }

  /** `normalizeText`: a string's trimmed text, or `None` for a non-string or a blank string. */
  function NormalizeText(v: JsValue): (r: Option<string>)
    ensures r.None? <==> !v.Str? || Trim(v.s) == ""
    ensures r.Some? ==> r.value == Trim(v.s) && r.value != ""
  {
    var normalized := if v.Str? then Trim(v.s) else "";
    if |normalized| > 0 then Some(normalized) else None
  }

  /** Normalising an already normalised text gives it back. */
  lemma NormalizeTextIdempotent(v: JsValue)
    requires NormalizeText(v).Some?
    ensures NormalizeText(Str(NormalizeText(v).value)) == NormalizeText(v)
  {
    TrimIdempotent(v.s);
  }

  lemma TrimIdempotent(s: string)
    ensures Trim(Trim(s)) == Trim(s)
  {
    TrimNoSpace(Trim(s));
  }

  /** The outcome of the icon step: the content type of the icon written, or a thrown error. */
  datatype IconOutcome = Stored(contentType: JsValue) | IconFailed

  /** The key the icon is stored under: `technology-icons/<slug>.<ext>`. */
  function IconKey(slug: string, contentType: JsValue): string {
    "technology-icons/" + slug + "." + ExtensionForContentType(contentType)
  }

  /** A row already carries an icon when its public URL is a non-empty string. */
  predicate HasIcon(t: Technology) {
    t.iconPublicUrl.Some? && t.iconPublicUrl.value != ""
  }

  /** The row after the icon step: unchanged when it has an icon already or the step failed. */
  function WithIcon(t: Technology, outcome: IconOutcome, publicPath: string): (u: Technology)
    ensures u.slug == t.slug && u.name == t.name && u.websiteUrl == t.websiteUrl
    ensures HasIcon(t) || outcome.IconFailed? ==> u == t
    ensures !HasIcon(t) && outcome.Stored? ==>
      && u.iconStorageKey == Some(IconKey(t.slug, outcome.contentType))
      && u.iconPublicUrl == Some(Storage.ToPublicUrl(publicPath, IconKey(t.slug, outcome.contentType)))
  {
    if HasIcon(t) then t
    else match outcome
      case IconFailed => t
      case Stored(ct) =>
        var key := IconKey(t.slug, ct);
        t.(iconStorageKey := Some(key),
           iconPublicUrl := Some(Storage.ToPublicUrl(publicPath, key)),
           iconContentType := if ct.Str? then Some(ct.s) else None)
  }

  /** The validated payload: slug and name must both normalise to non-blank text. */
  function PayloadItem(input: JsValue): (item: Option<Crawls.TechnologyItem>)
    ensures item.None? <==> NormalizeText(Get(input, "slug")).None? || NormalizeText(Get(input, "name")).None?
    ensures item.Some? ==> item.value.slug != "" && item.value.name != ""
  {
    var slug := NormalizeText(Get(input, "slug"));
    var name := NormalizeText(Get(input, "name"));
    if slug.None? || name.None? then None
    else Some(Crawls.TechnologyItem(slug.value, name.value, NormalizeText(Get(input, "websiteUrl")), None))
  }

  /**
   * `upsertTechnology`: a payload whose slug or name is blank is refused
   * before any write; otherwise the row is upserted by slug (the address
   * only overwrites when given) and, unless it already has an icon, the
   * icon step runs and its failure is swallowed.
   */
  method UpsertTechnology(db: Db, input: JsValue, outcome: IconOutcome, publicPath: string) returns (r: Result<Technology>)
    requires db.Valid()
    modifies db
    ensures db.Valid()
    ensures PayloadItem(input).None? ==>
      r == Err(BadRequest("Invalid technology payload")) && db.Snapshot() == old(db.Snapshot())
    ensures PayloadItem(input).Some? ==>
      var item := PayloadItem(input).value;
      && r == Ok(WithIcon(Crawls.UpsertTechnology(old(db.technologies), item)[item.slug], outcome, publicPath))
      && db.Snapshot() == old(db.Snapshot()).(technologies := old(db.technologies)[item.slug := r.value])
  {
    var payload := PayloadItem(input);
    if payload.None? {
      return Err(BadRequest("Invalid technology payload"));
    }
    var item := payload.value;
    var technology := Crawls.UpsertTechnology(db.technologies, item)[item.slug];
    db.PutTechnology(technology);
    if HasIcon(technology) {
      return Ok(technology);
    }
    var updated := WithIcon(technology, outcome, publicPath);
    db.PutTechnology(updated);
    OverwriteTwice(old(db.technologies), item.slug, technology, updated);
    r := Ok(updated);
  }

  /** A row that has its icon keeps it: a second upsert of the same payload never runs the icon step again. */
  lemma IconStoredOnce(t: Technology, item: Crawls.TechnologyItem, outcome: IconOutcome, publicPath: string)
    requires HasIcon(t) && item.slug == t.slug
    ensures WithIcon(Crawls.UpsertTechnology(map[t.slug := t], item)[t.slug], outcome, publicPath).iconPublicUrl == t.iconPublicUrl
  {
  }
}
