/**
 * The prominent-colour normalisers of the ingestion service: whatever
 * shape the colour extractor answers with, the stored value is either a
 * lowercase `#` hex colour or an `rgb(...)`/`hsl(...)` functional colour.
 */
module IngestionColors {
  import opened Text
  import opened Js
  import opened Wrappers

  predicate IsHexDigit(c: char) {
    '0' <= c <= '9' || 'a' <= c <= 'f' || 'A' <= c <= 'F'
  }

  predicate IsLowerHexDigit(c: char) {
    '0' <= c <= '9' || 'a' <= c <= 'f'
  }

  predicate AllHex(s: string) {
    forall i :: 0 <= i < |s| ==> IsHexDigit(s[i])
  }

  /** `/^0x[0-9a-f]{6}$/i` */
  predicate IsPrefixedHex6(s: string) {
    |s| == 8 && s[0] == '0' && (s[1] == 'x' || s[1] == 'X') && AllHex(s[2..])
  }

  /** `/^[0-9a-f]{3}$/i` or `/^[0-9a-f]{6}$/i` */
  predicate IsBareHex(s: string) {
    (|s| == 3 || |s| == 6) && AllHex(s)
  }

  /** `/^#[0-9a-f]{3,8}$/i` */
  predicate IsHashHex(s: string) {
    4 <= |s| <= 9 && s[0] == '#' && AllHex(s[1..])
  }

  /** `/^(rgb|hsl)a?\(/i` */
  predicate IsFunctional(s: string) {
    && |s| >= 4
    && ((LowerChar(s[0]) == 'r' && LowerChar(s[1]) == 'g' && LowerChar(s[2]) == 'b')
        || (LowerChar(s[0]) == 'h' && LowerChar(s[1]) == 's' && LowerChar(s[2]) == 'l'))
    && (s[3] == '(' || (LowerChar(s[3]) == 'a' && |s| >= 5 && s[4] == '('))
  }

  predicate AllLowerHex(s: string) {
    forall i :: 0 <= i < |s| ==> IsLowerHexDigit(s[i])
  }

  /** What gets stored: a lowercase `#` hex colour, or a trimmed functional colour kept as written. */
  predicate IsStoredColor(c: string) {
    || (4 <= |c| <= 9 && c[0] == '#' && AllLowerHex(c[1..]))
    || (IsFunctional(c) && !IsSpace(c[|c| - 1]))
  }

  /** Lowercasing hex digits gives lowercase hex digits. */
  lemma LowerHex(h: string)
    requires AllHex(h)
    ensures AllLowerHex(ToLower(h))
  {
    forall i | 0 <= i < |h| ensures IsLowerHexDigit(ToLower(h)[i]) {
      assert ToLower(h)[i] == LowerChar(h[i]);
    }
  }

  /** `String(value || "").trim()` */
  function ColorText(v: JsValue): (n: string)
    ensures n == [] || !IsSpace(n[|n| - 1])
  {
    Trim(ToStr(Or(v, Str(""))))
  }

  /** A `#` followed by three to eight hex digits, lowercased, is a stored colour. */
  lemma HashLowerIsStored(h: string)
    requires 3 <= |h| <= 8 && AllHex(h)
    ensures IsStoredColor("#" + ToLower(h))
  {
    LowerHex(h);
    assert ("#" + ToLower(h))[1..] == ToLower(h);
  }

  /** `normalizeCssColor` once the value has been turned into trimmed text. */
  function CssColorOf(n: string): (r: Option<string>)
    requires n == [] || !IsSpace(n[|n| - 1])
    ensures r.Some? <==> IsPrefixedHex6(n) || IsBareHex(n) || IsHashHex(n) || IsFunctional(n)
    ensures r.Some? ==> IsStoredColor(r.value)
  {
    if n == "" then None
    else if IsPrefixedHex6(n) then
      HashLowerIsStored(n[2..]);
      Some("#" + ToLower(n[2..]))
    else if IsBareHex(n) then
      HashLowerIsStored(n);
      Some("#" + ToLower(n))
    else if IsHashHex(n) then
      HashLowerIsStored(n[1..]);
      ToLowerAppend("#", n[1..]);
      assert n == "#" + n[1..];
      Some(ToLower(n))
    else if IsFunctional(n) then Some(n)
    else None
  }

  /** `normalizeCssColor` */
  function NormalizeCssColor(v: JsValue): (r: Option<string>)
    ensures r.Some? ==> IsStoredColor(r.value)
  {
    CssColorOf(ColorText(v))
  }

  /** Every stored colour normalises to itself, so normalising twice changes nothing. */
  lemma CssColorIdempotent(c: string)
    requires IsStoredColor(c)
    ensures CssColorOf(c) == Some(c)
  {
    if c[0] == '#' {
      assert IsHashHex(c) && !IsPrefixedHex6(c) && !IsBareHex(c);
      assert c[1..] == ToLower(c[1..]) by {
        assert forall i :: 0 <= i < |c[1..]| ==> !IsUpper(c[1..][i]);
        ToLowerIsLower(c[1..]);
      }
      ToLowerAppend("#", c[1..]);
      assert c == "#" + c[1..];
    } else {
      assert !IsHexDigit(c[0]) && c[0] != '0';
    }
  }

  lemma NormalizeCssColorIdempotent(c: string)
    requires IsStoredColor(c)
    ensures NormalizeCssColor(Str(c)) == Some(c)
  {
    assert !IsSpace(c[0]) && !IsSpace(c[|c| - 1]);
    TrimNoSpace(c);
    assert ColorText(Str(c)) == c;
    CssColorIdempotent(c);
  }

  /** The `0x` form, in either case of `x`, gains a `#` and loses its case: `0xFFAA00` is stored as `#ffaa00`. */
  lemma CssColorPrefixed(x: char, h: string)
    requires x == 'x' || x == 'X'
    requires |h| == 6 && AllHex(h)
    ensures !IsSpace((['0', x] + h)[7])
    ensures CssColorOf(['0', x] + h) == Some("#" + ToLower(h))
  {
    var n := ['0', x] + h;
    assert n[7] == h[5] && IsHexDigit(h[5]);
    assert n[2..] == h;
  }

  /** A word of letters that does not start with a hex digit, such as a colour name like `red`, is refused. */
  lemma CssColorRefusesWords(n: string)
    requires n != [] && !IsHexDigit(n[0])
    requires forall i :: 0 <= i < |n| ==> 'a' <= n[i] <= 'z' || 'A' <= n[i] <= 'Z'
    ensures !IsSpace(n[|n| - 1])
    ensures CssColorOf(n) == None
  {
    assert n[0] != '#' && n[0] != '0';
    assert !IsBareHex(n);
    if |n| >= 4 {
      assert n[3] != '(' && (|n| >= 5 ==> n[4] != '(');
    }
  }

  // --------------------------------------------------------------- bytes

  /** `Math.round`: the nearest integer, halves rounding up. */
  function Round(x: real): (n: int)
    ensures n as real - 0.5 <= x < n as real + 0.5
  {
    (x + 0.5).Floor
  }

  /** `clampByte`: the rounded number when it lies in [0, 255], otherwise nothing. */
  function ClampByte(v: JsValue): (b: Option<int>)
    ensures b.Some? <==> ToNumber(v).Finite? && -0.5 <= ToNumber(v).r < 255.5
    ensures b.Some? ==> 0 <= b.value <= 255 && b.value as real - 0.5 <= ToNumber(v).r < b.value as real + 0.5
  {
    match ToNumber(v)
    case Finite(x) =>
      var n := Round(x);
      if n < 0 || n > 255 then None else Some(n)
    case _ => None
  }

  function HexDigitChar(d: int): (c: char)
    requires 0 <= d < 16
    ensures IsLowerHexDigit(c)
  {
    if d < 10 then ('0' as int + d) as char else ('a' as int + d - 10) as char
  }

  function HexDigitValue(c: char): (d: int)
    requires IsLowerHexDigit(c)
    ensures 0 <= d < 16
  {
    if c <= '9' then c as int - '0' as int else c as int - 'a' as int + 10
  }

  /** `n.toString(16).padStart(2, "0")` for a byte. */
  function Hex2(n: int): (s: string)
    requires 0 <= n <= 255
    ensures |s| == 2 && IsLowerHexDigit(s[0]) && IsLowerHexDigit(s[1])
  {
    [HexDigitChar(n / 16), HexDigitChar(n % 16)]
  }

  /** Value of two lowercase hex digits. */
  function Hex2Value(s: string): int
    requires |s| == 2 && IsLowerHexDigit(s[0]) && IsLowerHexDigit(s[1])
  {
    HexDigitValue(s[0]) * 16 + HexDigitValue(s[1])
  }

  lemma Hex2RoundTrip(n: int)
    requires 0 <= n <= 255
    ensures Hex2Value(Hex2(n)) == n
  {
  }

  /** `rgbToHex` */
  function RgbToHex(r: JsValue, g: JsValue, b: JsValue): (hex: Option<string>)
    ensures hex.Some? <==> ClampByte(r).Some? && ClampByte(g).Some? && ClampByte(b).Some?
    ensures hex.Some? ==> |hex.value| == 7 && IsStoredColor(hex.value)
  {
    match (ClampByte(r), ClampByte(g), ClampByte(b))
    case (Some(rr), Some(gg), Some(bb)) => Some("#" + Hex2(rr) + Hex2(gg) + Hex2(bb))
    case _ => None
  }

  /** Reads `#rrggbb` back into its three channels; anything else reads as `None`. */
  function ParseHexColor(h: string): Option<(int, int, int)> {
    if |h| == 7 && h[0] == '#' && forall i :: 1 <= i < 7 ==> IsLowerHexDigit(h[i])
    then Some((Hex2Value(h[1..3]), Hex2Value(h[3..5]), Hex2Value(h[5..7])))
    else None
  }

  lemma HashThreePairs(a: string, b: string, c: string)
    requires |a| == 2 && |b| == 2 && |c| == 2
    ensures var h := "#" + a + b + c;
      |h| == 7 && h[0] == '#' && h[1..3] == a && h[3..5] == b && h[5..7] == c
  {
  }

  /** The three channels can be read back from the hex colour, each as its rounded byte. */
  lemma RgbToHexRoundTrip(r: JsValue, g: JsValue, b: JsValue)
    requires RgbToHex(r, g, b).Some?
    ensures ParseHexColor(RgbToHex(r, g, b).value) == Some((ClampByte(r).value, ClampByte(g).value, ClampByte(b).value))
  {
    var rr, gg, bb := ClampByte(r).value, ClampByte(g).value, ClampByte(b).value;
    var h := RgbToHex(r, g, b).value;
    HashThreePairs(Hex2(rr), Hex2(gg), Hex2(bb));
    assert h == "#" + Hex2(rr) + Hex2(gg) + Hex2(bb);
    Hex2RoundTrip(rr);
    Hex2RoundTrip(gg);
    Hex2RoundTrip(bb);
  }

  // -------------------------------------------------------------- values

  /** The channel forms of `normalizeProminentColorValue`: `rgb` as text, array or object, then `r/g/b`, then `red/green/blue`. */
  function ChannelColor(v: JsValue): (c: Option<string>)
    ensures c.Some? ==> IsStoredColor(c.value)
  {
    var rgb := Get(v, "rgb");
    if rgb.Str? then NormalizeCssColor(rgb)
    else if rgb.Arr? then RgbToHex(At(rgb, 0), At(rgb, 1), At(rgb, 2))
    else if rgb.Obj? then
      RgbToHex(Coalesce(Get(rgb, "r"), Get(rgb, "red")),
               Coalesce(Get(rgb, "g"), Get(rgb, "green")),
               Coalesce(Get(rgb, "b"), Get(rgb, "blue")))
    else if Has(v, "r") || Has(v, "g") || Has(v, "b") then RgbToHex(Get(v, "r"), Get(v, "g"), Get(v, "b"))
    else if Has(v, "red") || Has(v, "green") || Has(v, "blue") then RgbToHex(Get(v, "red"), Get(v, "green"), Get(v, "blue"))
    else None
  }

  /** `normalizeProminentColorValue`: strings, `[r, g, b]` arrays and the object shapes extractors use. */
  function NormalizeProminentColorValue(v: JsValue): Option<string> {
    match v
    case Str(_) => NormalizeCssColor(v)
    case Arr(items) => if |items| >= 3 then RgbToHex(items[0], items[1], items[2]) else None
    case Obj(fields) =>
      if Truthy(Get(v, "hex")) then NormalizeCssColor(Get(v, "hex"))
      else if "value" in fields && Truthy(fields["value"]) then NormalizeProminentColorValue(fields["value"])
      else if "color" in fields && Truthy(fields["color"]) then NormalizeProminentColorValue(fields["color"])
      else ChannelColor(v)
    case _ => None
  }

  /** Whatever shape the value has, a colour it yields is in a stored form. */
  lemma {:induction false} ProminentColorValueIsStored(v: JsValue)
    ensures NormalizeProminentColorValue(v).Some? ==> IsStoredColor(NormalizeProminentColorValue(v).value)
  {
    match v
    case Obj(fields) =>
      if Truthy(Get(v, "hex")) {
      } else if "value" in fields && Truthy(fields["value"]) {
        ProminentColorValueIsStored(fields["value"]);
      } else if "color" in fields && Truthy(fields["color"]) {
        ProminentColorValueIsStored(fields["color"]);
      }
    case _ =>
  }

  /** A stored colour given back as a string, or wrapped as `{ hex }`, is kept as it is. */
  lemma ProminentColorValueStable(c: string)
    requires IsStoredColor(c)
    ensures NormalizeProminentColorValue(Str(c)) == Some(c)
    ensures NormalizeProminentColorValue(Obj(map["hex" := Str(c)])) == Some(c)
  {
    NormalizeCssColorIdempotent(c);
    HexFieldDecides(Str(c));
  }

  lemma HexFieldDecides(x: JsValue)
    requires Truthy(x)
    ensures NormalizeProminentColorValue(Obj(map["hex" := x])) == NormalizeCssColor(x)
  {
    var o := Obj(map["hex" := x]);
    assert Get(o, "hex") == x && Truthy(Get(o, "hex"));
    assert NormalizeProminentColorValue(o) == NormalizeCssColor(Get(o, "hex"));
  }

  /** `{ value: x }` and `{ color: x }` mean `x` whenever `x` is truthy. */
  lemma ProminentColorUnwraps(x: JsValue)
    requires Truthy(x)
    ensures NormalizeProminentColorValue(Obj(map["value" := x])) == NormalizeProminentColorValue(x)
    ensures NormalizeProminentColorValue(Obj(map["color" := x])) == NormalizeProminentColorValue(x)
  {
    var o1 := Obj(map["value" := x]);
    assert !Has(o1, "hex") && Get(o1, "value") == x;
    var o2 := Obj(map["color" := x]);
    assert !Has(o2, "hex") && !Has(o2, "value") && Get(o2, "color") == x;
  }

  /** An object with none of `hex`, `value`, `color`, `rgb` but with one of `r`, `g`, `b` reads its three channels. */
  lemma ProminentColorRgbObject(v: JsValue)
    requires v.Obj? && !Has(v, "hex") && !Has(v, "value") && !Has(v, "color") && !Has(v, "rgb")
    requires Has(v, "r") || Has(v, "g") || Has(v, "b")
    ensures NormalizeProminentColorValue(v) == RgbToHex(Get(v, "r"), Get(v, "g"), Get(v, "b"))
  {
  }

  /** Failing those, one of `red`, `green`, `blue` makes it read the named channels. */
  lemma ProminentColorNamedChannels(v: JsValue)
    requires v.Obj? && !Has(v, "hex") && !Has(v, "value") && !Has(v, "color") && !Has(v, "rgb")
    requires !Has(v, "r") && !Has(v, "g") && !Has(v, "b")
    requires Has(v, "red") || Has(v, "green") || Has(v, "blue")
    ensures NormalizeProminentColorValue(v) == RgbToHex(Get(v, "red"), Get(v, "green"), Get(v, "blue"))
  {
  }

  // -------------------------------------------------------------- result

  /** `a ?? b ?? ... ?? null`: the first candidate that is neither null nor undefined. */
  function FirstPresent(cands: seq<JsValue>): (v: JsValue)
    ensures Nullish(v) ==> v == Null
  {
    if cands == [] then Null
    else if !Nullish(cands[0]) then cands[0]
    else FirstPresent(cands[1..])
  }

  /** The chain yields a candidate exactly when one is present, and then the first such. */
  lemma {:induction false} FirstPresentIsFirst(cands: seq<JsValue>)
    ensures !Nullish(FirstPresent(cands)) <==> exists i :: 0 <= i < |cands| && !Nullish(cands[i])
    ensures !Nullish(FirstPresent(cands)) ==>
      exists i :: 0 <= i < |cands| && FirstPresent(cands) == cands[i] && forall j :: 0 <= j < i ==> Nullish(cands[j])
  {
    if cands != [] && Nullish(cands[0]) {
      var rest := cands[1..];
      FirstPresentIsFirst(rest);
      assert forall i :: 1 <= i < |cands| ==> cands[i] == rest[i - 1];
      if !Nullish(FirstPresent(rest)) {
        var i :| 0 <= i < |rest| && FirstPresent(rest) == rest[i] && forall j :: 0 <= j < i ==> Nullish(rest[j]);
        assert forall j :: 0 <= j < i + 1 ==> Nullish(cands[j]);
      }
    } else if cands != [] {
      assert FirstPresent(cands) == cands[0];
    }
  }

  /** `Array.isArray(x) ? x[0] : null` */
  function HeadIfArray(x: JsValue): JsValue {
    if x.Arr? then At(x, 0) else Null
  }

  /** The places, in order, where extractors have been seen to put the prominent colour. */
  function ColorCandidates(result: JsValue): seq<JsValue> {
    var sig := Get(result, "signatureColor");
    var palette := Get(result, "palette");
    var data := Get(result, "data");
    [ Get(sig, "hex"), Get(sig, "color"),
      Get(palette, "signature"), Get(palette, "accent"), Get(palette, "primary"), Get(palette, "brand"),
      At(Get(palette, "accents"), 0),
      At(Get(result, "accents"), 0), At(Get(result, "backgrounds"), 0), At(Get(result, "texts"), 0),
      Get(data, "prominentColor"), Get(data, "dominantColor"), Get(data, "primaryColor"),
      Get(data, "mainColor"), Get(data, "dominant"), Get(data, "prominent"), Get(data, "color"),
      Get(result, "prominentColor"), Get(result, "dominantColor"), Get(result, "primaryColor"),
      Get(result, "mainColor"), Get(result, "dominant"), Get(result, "prominent"), Get(result, "color"),
      Get(Get(data, "dominant"), "color"), Get(Get(data, "dominant"), "value"),
      Get(Get(data, "prominent"), "color"), Get(Get(data, "prominent"), "value"),
      HeadIfArray(Get(data, "colors")), HeadIfArray(Get(data, "palette")),
      HeadIfArray(Get(result, "colors")), HeadIfArray(palette) ]
  }

  /** `normalizeProminentColorResult`: the first present candidate, normalised. */
  function NormalizeProminentColorResult(result: JsValue): (c: Option<string>)
    ensures c.Some? ==> IsStoredColor(c.value)
  {
    ProminentColorValueIsStored(FirstPresent(ColorCandidates(result)));
    NormalizeProminentColorValue(FirstPresent(ColorCandidates(result)))
  }

  /** A present but unusable candidate hides every later one. */
  lemma FirstCandidateDecides(result: JsValue)
    requires !Nullish(Get(Get(result, "signatureColor"), "hex"))
    ensures NormalizeProminentColorResult(result) == NormalizeProminentColorValue(Get(Get(result, "signatureColor"), "hex"))
  {
  }
}
