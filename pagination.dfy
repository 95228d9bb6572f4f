/**
 * Limits and keyset cursors (`src/lib/pagination.js`). Rows are listed
 * newest first, ties broken by id descending; a cursor names the last row
 * of a page and the next page is every row strictly after it in that order.
 */
module Pagination {
  import opened Js
  import opened Wrappers
  import Lists

  /** `clampLimit`: the number in [min, max], or `fallback` (unclamped) when it is not finite. */
  function ClampLimit(limit: JsValue, min: int, max: int, fallback: int): (r: real)
    requires min <= max
    ensures !ToNumber(limit).Finite? ==> r == fallback as real
    ensures ToNumber(limit).Finite? ==> min as real <= r <= max as real
    ensures ToNumber(limit).Finite? && min as real <= ToNumber(limit).r <= max as real ==> r == ToNumber(limit).r
  {
    match ToNumber(limit)
    case Finite(x) => if x > max as real then max as real else if x < min as real then min as real else x
    case _ => fallback as real
  }

  /** Whole numbers stay whole, so a clamped limit can be used as a row count. */
  lemma ClampLimitWhole(n: int, min: int, max: int, fallback: int)
    requires min <= max
    ensures ClampLimit(Number(Finite(n as real)), min, max, fallback).Floor as real
         == ClampLimit(Number(Finite(n as real)), min, max, fallback)
  {
  }

  /** A whole limit within the bounds is taken as it is. */
  lemma ClampLimitWithin(n: int, min: int, max: int, fallback: int)
    requires min <= n <= max
    ensures ClampLimit(Number(Finite(n as real)), min, max, fallback) == n as real
  {
    assert ToNumber(Number(Finite(n as real))) == Finite(n as real);
  }

  /** The row count a (finite, whole) limit asks for. */
  function TakeCount(limit: real): (k: nat)
    ensures limit >= 0.0 ==> k as real <= limit < k as real + 1.0
  {
    if limit < 0.0 then 0 else limit.Floor
  }

  // ------------------------------------------------------------- cursors

  /** The opaque text of an encoded cursor, kept as the value it encodes (JSON then base64url). */
  datatype Wire = Wire(payload: JsValue)

  /** `encodeCursor` */
  function EncodeCursor(v: JsValue): (w: Option<Wire>)
    ensures w.None? <==> !Truthy(v)
  {
    if !Truthy(v) then None else Some(Wire(v))
  }

  /** The `cursor` query parameter: absent, empty, one this service issued, or text that is not JSON. */
  datatype CursorParam = Absent | Blank | Issued(wire: Wire) | Corrupt

  /** `decodeCursor`: null for a missing or empty parameter; corrupt text makes `JSON.parse` throw. */
  function DecodeCursor(c: CursorParam): (r: Result<JsValue>)
    ensures c.Absent? || c.Blank? ==> r == Ok(Null)
    ensures r.Err? <==> c.Corrupt?
  {
    match c
    case Absent => Ok(Null)
    case Blank => Ok(Null)
    case Issued(w) => Ok(w.payload)
    case Corrupt => Err(Thrown("Unexpected token in JSON"))
  }

  /** Decoding an issued cursor gives back what was encoded. */
  lemma CursorRoundTrip(v: JsValue)
    requires Truthy(v)
    ensures DecodeCursor(Issued(EncodeCursor(v).value)) == Ok(v)
  {
  }

  // ------------------------------------------------------------ keysets

  /** Strict lexicographic order on ids. */
  predicate StrLt(a: string, b: string) {
    if a == [] then b != []
    else if b == [] then false
    else a[0] < b[0] || (a[0] == b[0] && StrLt(a[1..], b[1..]))
  }

  lemma {:induction false} StrLtIrreflexive(a: string)
    ensures !StrLt(a, a)
  {
    if a != [] { StrLtIrreflexive(a[1..]); }
  }

  lemma {:induction false} StrLtTrichotomy(a: string, b: string)
    ensures StrLt(a, b) || a == b || StrLt(b, a)
    ensures !(StrLt(a, b) && StrLt(b, a))
  {
    if a != [] && b != [] {
      StrLtTrichotomy(a[1..], b[1..]);
      if a[0] == b[0] && a[1..] == b[1..] {
        assert a == [a[0]] + a[1..] && b == [b[0]] + b[1..];
      }
    }
  }

  lemma {:induction false} StrLtTransitive(a: string, b: string, c: string)
    requires StrLt(a, b) && StrLt(b, c)
    ensures StrLt(a, c)
  {
    if a != [] && b != [] && c != [] && a[0] == b[0] && b[0] == c[0] {
      StrLtTransitive(a[1..], b[1..], c[1..]);
    }
  }

  /** A row's position key: creation time, then id. */
  datatype Key = Key(createdAt: int, id: string)

  /** Strictly earlier in (createdAt, id): strictly later in the listing order. */
  predicate KeyLt(a: Key, b: Key) {
    a.createdAt < b.createdAt || (a.createdAt == b.createdAt && StrLt(a.id, b.id))
  }

  lemma KeyLtTransitive(a: Key, b: Key, c: Key)
    requires KeyLt(a, b) && KeyLt(b, c)
    ensures KeyLt(a, c)
  {
    if a.createdAt == b.createdAt == c.createdAt {
      StrLtTransitive(a.id, b.id, c.id);
    }
  }

  lemma KeyLtIrreflexive(a: Key)
    ensures !KeyLt(a, a)
  {
    StrLtIrreflexive(a.id);
  }

  /** The parts of a decoded cursor the filter reads; `createdAt` is `None` when it is not a valid date. */
  datatype Cursor = Cursor(createdAt: Option<int>, id: string)

  /** The filter `makeCreatedAtCursorWhere` builds. */
  datatype CursorWhere = Everything | Before(key: Key)

  /** `makeCreatedAtCursorWhere`: no filter without a cursor, without a valid date or without an id. */
  function MakeCreatedAtCursorWhere(c: Option<Cursor>): (w: CursorWhere)
    ensures w.Everything? <==> c.None? || c.value.createdAt.None? || c.value.id == ""
    ensures w.Before? ==> w.key == Key(c.value.createdAt.value, c.value.id)
  {
    match c
    case None => Everything
    case Some(cur) => if cur.createdAt.None? || cur.id == "" then Everything else Before(Key(cur.createdAt.value, cur.id))
  }

  /**
   * The object a listing encodes as its next cursor, `{ createdAt, id }`;
   * the date is carried as its time value (its ISO text form is left out).
   */
  function CursorObject(c: Cursor): (v: JsValue)
    ensures Truthy(v) && Get(v, "id") == Str(c.id)
  {
    Obj(map["createdAt" := (if c.createdAt.Some? then Number(Finite(c.createdAt.value as real)) else Undefined),
            "id" := Str(c.id)])
  }

  /** A date parser: `new Date(v).getTime()`, `None` for an invalid date. */
  type DateParser = JsValue -> Option<int>

  /** What `makeCreatedAtCursorWhere` reads from a decoded cursor: nothing from a falsy one. */
  function ReadCursor(v: JsValue, parseDate: DateParser): (c: Option<Cursor>)
    ensures c.None? <==> !Truthy(v)
    ensures c.Some? ==> c.value.createdAt == parseDate(Get(v, "createdAt"))
    ensures c.Some? && Get(v, "id").Str? ==> c.value.id == Get(v, "id").s
  {
    if !Truthy(v) then None
    else Some(Cursor(parseDate(Get(v, "createdAt")), if Truthy(Get(v, "id")) then ToStr(Get(v, "id")) else ""))
  }

  /**
   * A cursor this service issued reads back as the filter "strictly after
   * that row", provided dates read back the time they were written with.
   */
  lemma IssuedCursorFilter(k: Key, parseDate: DateParser)
    requires k.id != ""
    requires parseDate(Number(Finite(k.createdAt as real))) == Some(k.createdAt)
    ensures var wire := EncodeCursor(CursorObject(Cursor(Some(k.createdAt), k.id)));
      && wire.Some?
      && DecodeCursor(Issued(wire.value)).Ok?
      && MakeCreatedAtCursorWhere(ReadCursor(DecodeCursor(Issued(wire.value)).value, parseDate)) == Before(k)
  {
    var v := CursorObject(Cursor(Some(k.createdAt), k.id));
    assert Get(v, "createdAt") == Number(Finite(k.createdAt as real));
  }

  /** `{ OR: [{ createdAt < t }, { createdAt = t, id < id }] }` */
  predicate Accepts(w: CursorWhere, k: Key) {
    match w
    case Everything => true
    case Before(c) => k.createdAt < c.createdAt || (k.createdAt == c.createdAt && StrLt(k.id, c.id))
  }

  lemma AcceptsIsKeyLt(c: Key, k: Key)
    ensures Accepts(Before(c), k) <==> KeyLt(k, c)
  {
  }

  /** Newest first, then id descending, with no two rows sharing a key. */
  predicate ListingOrder<T>(rows: seq<T>, key: T -> Key) {
    forall i, j :: 0 <= i < j < |rows| ==> KeyLt(key(rows[j]), key(rows[i]))
  }

  lemma ListingOrderTail<T>(rows: seq<T>, key: T -> Key)
    requires ListingOrder(rows, key) && rows != []
    ensures ListingOrder(rows[1..], key)
  {
    forall i, j | 0 <= i < j < |rows[1..]| ensures KeyLt(key(rows[1..][j]), key(rows[1..][i])) {
      assert rows[1..][j] == rows[j + 1] && rows[1..][i] == rows[i + 1];
    }
  }

  /** The rows the cursor filter accepts, in listing order. */
  function Select<T(!new)>(rows: seq<T>, key: T -> Key, w: CursorWhere): (r: seq<T>)
    ensures |r| <= |rows|
    ensures forall i :: 0 <= i < |r| ==> Accepts(w, key(r[i]))
    ensures forall x :: x in r <==> x in rows && Accepts(w, key(x))
  {
    if rows == [] then []
    else if Accepts(w, key(rows[0])) then [rows[0]] + Select(rows[1..], key, w)
    else Select(rows[1..], key, w)
  }

  /** The accepted rows keep their listing order: they are a sub-sequence of the rows. */
  lemma {:induction false} SelectKeepsOrder<T(!new)>(rows: seq<T>, key: T -> Key, w: CursorWhere)
    ensures Lists.Sublist(Select(rows, key, w), rows)
  {
    if rows != [] {
      SelectKeepsOrder(rows[1..], key, w);
    }
  }

  /**
   * In listing order, the rows the cursor filter accepts are exactly the rows
   * after the cursor's row: the cursor row itself is excluded.
   */
  lemma {:induction false} SelectAfterCursor<T(!new)>(rows: seq<T>, key: T -> Key, k: nat)
    requires ListingOrder(rows, key) && k < |rows|
    ensures Select(rows, key, Before(key(rows[k]))) == rows[k + 1..]
  {
    ListingOrderTail(rows, key);
    if k == 0 {
      KeyLtIrreflexive(key(rows[0]));
      AllAccepted(rows[1..], key, key(rows[0]));
    } else {
      assert KeyLt(key(rows[k]), key(rows[0]));
      KeyLtAsym(key(rows[k]), key(rows[0]));
      SelectAfterCursor(rows[1..], key, k - 1);
      assert rows[1..][k - 1] == rows[k];
      assert rows[1..][k - 1 + 1..] == rows[k + 1..];
    }
  }

  lemma KeyLtAsym(a: Key, b: Key)
    requires KeyLt(a, b)
    ensures !KeyLt(b, a)
  {
    StrLtTrichotomy(a.id, b.id);
  }

  /** Every row below the cursor key is accepted. */
  lemma {:induction false} AllAccepted<T(!new)>(rows: seq<T>, key: T -> Key, c: Key)
    requires ListingOrder(rows, key)
    requires forall i :: 0 <= i < |rows| ==> KeyLt(key(rows[i]), c)
    ensures Select(rows, key, Before(c)) == rows
  {
    if rows != [] {
      ListingOrderTail(rows, key);
      AllAccepted(rows[1..], key, c);
    }
  }

  /** `{}`: without a cursor every row is accepted. */
  lemma {:induction false} EverythingKeepsAll<T(!new)>(rows: seq<T>, key: T -> Key)
    ensures Select(rows, key, Everything) == rows
  {
    if rows != [] { EverythingKeepsAll(rows[1..], key); }
  }

  /** `take: limit`: the first rows, as many as the limit allows. */
  function Take<T>(rows: seq<T>, limit: real): (r: seq<T>)
    ensures |r| <= |rows| && r == rows[..|r|]
    ensures limit >= 0.0 ==> |r| as real <= limit
    ensures |r| < |rows| ==> limit < |r| as real + 1.0
  {
    var n := TakeCount(limit);
    if |rows| <= n then rows else rows[..n]
  }

  /** `items.length === limit ? { createdAt, id } of the last item : null` */
  function NextCursor<T>(items: seq<T>, key: T -> Key, limit: real): (c: Option<Cursor>)
    ensures c.Some? <==> |items| as real == limit && |items| > 0
    ensures c.Some? ==> c.value == Cursor(Some(key(items[|items| - 1]).createdAt), key(items[|items| - 1]).id)
  {
    if |items| as real == limit && |items| > 0 then
      Some(Cursor(Some(key(items[|items| - 1]).createdAt), key(items[|items| - 1]).id))
    else None
  }

  /** One page: the accepted rows in listing order, at most `limit` of them. */
  function Page<T(!new)>(rows: seq<T>, key: T -> Key, w: CursorWhere, limit: real): (page: seq<T>)
    ensures |page| <= |rows|
    ensures limit >= 0.0 ==> |page| as real <= limit
  {
    Take(Select(rows, key, w), limit)
  }

  /** The page asked for with the issued cursor of row `n - 1` is the rows after it. */
  lemma PageAfterIssuedCursor<T(!new)>(rows: seq<T>, key: T -> Key, n: nat, limit: real, parseDate: DateParser)
    requires ListingOrder(rows, key) && 0 < n <= |rows|
    requires key(rows[n - 1]).id != ""
    requires parseDate(Number(Finite(key(rows[n - 1]).createdAt as real))) == Some(key(rows[n - 1]).createdAt)
    ensures var wire := EncodeCursor(CursorObject(Cursor(Some(key(rows[n - 1]).createdAt), key(rows[n - 1]).id)));
      && wire.Some?
      && DecodeCursor(Issued(wire.value)).Ok?
      && Page(rows, key, MakeCreatedAtCursorWhere(ReadCursor(DecodeCursor(Issued(wire.value)).value, parseDate)), limit)
         == Take(rows[n..], limit)
  {
    IssuedCursorFilter(key(rows[n - 1]), parseDate);
    SelectAfterCursor(rows, key, n - 1);
  }

  /**
   * Following `nextCursor` continues where the page stopped: the next page
   * starts right after the last row of this one, so no row is skipped or repeated.
   */
  lemma NextPageContinues<T(!new)>(rows: seq<T>, key: T -> Key, limit: nat)
    requires ListingOrder(rows, key) && 0 < limit <= |rows|
    requires key(rows[limit - 1]).id != ""
    ensures var first := Page(rows, key, Everything, limit as real);
      && first == rows[..limit]
      && NextCursor(first, key, limit as real).Some?
      && Select(rows, key, MakeCreatedAtCursorWhere(NextCursor(first, key, limit as real))) == rows[limit..]
  {
    FirstPage(rows, key, limit);
    SelectAfterCursor(rows, key, limit - 1);
  }

  /** Without a cursor a page is the first `limit` rows, and a full page names its last row. */
  lemma FirstPage<T(!new)>(rows: seq<T>, key: T -> Key, limit: nat)
    requires 0 < limit <= |rows|
    ensures Page(rows, key, Everything, limit as real) == rows[..limit]
    ensures NextCursor(rows[..limit], key, limit as real)
         == Some(Cursor(Some(key(rows[limit - 1]).createdAt), key(rows[limit - 1]).id))
  {
    EverythingKeepsAll(rows, key);
    assert TakeCount(limit as real) == limit;
  }
}
