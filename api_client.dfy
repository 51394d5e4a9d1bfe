/** The browser-side API client (`ApiClient` in static/js/utils.js): two sliding
    one-minute rate windows, the request-key bookkeeping map, URL building and the
    normalisation of a settled HTTP response.  Time is the integer `now` in
    milliseconds that `Date.now()` would have returned; a network call is a
    `Dispatch` record, and its settlement is an explicit `Settle` event. */
module ApiClient {
  import opened Common

  // ---------------------------------------------------------------------------
  // Rate-limit categories

  datatype Category = General | Write

  function Other(c: Category): Category {
    if c == General then Write else General
  }

  /** Length of the sliding window in milliseconds. */
  const WindowMs: int := 60000

  /** Admitted calls per window: 30 for reads, 10 for writes. */
  function Limit(c: Category): nat {
    match c
    case General => 30
    case Write => 10
  }

  /** `options.method || 'GET'`: an absent or empty method is a GET. */
  function MethodName(httpMethod: Option<string>): string {
    if httpMethod.Some? && httpMethod.value != "" then httpMethod.value else "GET"
  }

  /** The category `request` charges: POST, PUT and DELETE (spelled exactly so)
      are writes, every other method, an absent one included, is general. */
  function CategoryOf(httpMethod: Option<string>): (c: Category)
    ensures c == Write <==> httpMethod in {Some("POST"), Some("PUT"), Some("DELETE")}
    ensures httpMethod.None? ==> c == General
  {
    if MethodName(httpMethod) in ["POST", "PUT", "DELETE"] then Write else General
  }

  // ---------------------------------------------------------------------------
  // One check of one window

  /** `stamps.filter(time => time > cutoff)`. */
  function Survivors(stamps: seq<int>, cutoff: int): (r: seq<int>)
    ensures |r| <= |stamps|
    ensures forall t :: t in r <==> t in stamps && t > cutoff
    decreases |stamps|
  {
    if stamps == [] then []
    else (if stamps[0] > cutoff then [stamps[0]] else []) + Survivors(stamps[1..], cutoff)
  }

  /** The purge keeps every recent stamp as often as it occurs: calls made in
      the same millisecond each count against the limit. */
  lemma {:induction false} SurvivorsKeepRepeats(stamps: seq<int>, cutoff: int)
    ensures forall t :: multiset(Survivors(stamps, cutoff))[t] == if t > cutoff then multiset(stamps)[t] else 0
    decreases |stamps|
  {
    if stamps != [] {
      SurvivorsKeepRepeats(stamps[1..], cutoff);
      assert stamps == [stamps[0]] + stamps[1..];
    }
  }

  /** A list whose stamps are all recent is kept whole by the purge. */
  lemma {:induction false} SurvivorsOfRecent(stamps: seq<int>, cutoff: int)
    requires forall t :: t in stamps ==> t > cutoff
    ensures Survivors(stamps, cutoff) == stamps
    decreases |stamps|
  {
    if stamps != [] {
      assert stamps[0] in stamps;
      assert forall t :: t in stamps[1..] ==> t in stamps;
      SurvivorsOfRecent(stamps[1..], cutoff);
      assert [stamps[0]] + stamps[1..] == stamps;
    }
  }

  /** A list whose stamps have all aged out is emptied by the purge. */
  lemma {:induction false} SurvivorsOfStale(stamps: seq<int>, cutoff: int)
    requires forall t :: t in stamps ==> t <= cutoff
    ensures Survivors(stamps, cutoff) == []
    decreases |stamps|
  {
    if stamps != [] {
      assert stamps[0] in stamps;
      assert forall t :: t in stamps[1..] ==> t in stamps;
      SurvivorsOfStale(stamps[1..], cutoff);
    }
  }

  /** Purging twice is purging once. */
  lemma SurvivorsIdempotent(stamps: seq<int>, cutoff: int)
    ensures Survivors(Survivors(stamps, cutoff), cutoff) == Survivors(stamps, cutoff)
  {
    SurvivorsOfRecent(Survivors(stamps, cutoff), cutoff);
  }

  /** `Math.min(...stamps)` of a non-empty list. */
  function MinOf(stamps: seq<int>): (m: int)
    requires |stamps| > 0
    ensures m in stamps
    ensures forall t :: t in stamps ==> m <= t
    decreases |stamps|
  {
    if |stamps| == 1 then stamps[0]
    else
      var rest := MinOf(stamps[1..]);
      assert forall t :: t in stamps ==> t == stamps[0] || t in stamps[1..];
      if stamps[0] <= rest then stamps[0] else rest
  }

  /** `Math.ceil((oldest + 60000 - now) / 1000)`: whole seconds until the oldest
      stamp leaves the window. */
  function WaitSeconds(oldest: int, now: int): (w: int)
    ensures 1000 * (w - 1) < oldest + WindowMs - now <= 1000 * w
  {
    CeilDiv(oldest + WindowMs - now, 1000)
  }

  datatype RateCheck = Admitted | Exceeded(waitSeconds: nat)

  /** The outcome of `checkRateLimit` and the category's new list. */
  datatype WindowStep = WindowStep(decision: RateCheck, stamps: seq<int>)

  /** `checkRateLimit(c)` on the category's list `stamps` at time `now`: purge the
      stamps at or before `now - 60000`; reject when the survivors already reach
      the limit, otherwise append `now`. */
  function Check(stamps: seq<int>, c: Category, now: int): (w: WindowStep)
    ensures var kept := Survivors(stamps, now - WindowMs);
      && (w.decision.Admitted? <==> |kept| < Limit(c))
      && (w.decision.Admitted? ==> w.stamps == kept + [now])
      && (w.decision.Exceeded? ==> w.stamps == kept)
  {
    var kept := Survivors(stamps, now - WindowMs);
    if |kept| >= Limit(c) then
      var oldest := MinOf(kept);
      var wait := WaitSeconds(oldest, now);
      assert wait >= 1;
      WindowStep(Exceeded(wait), kept)
    else
      WindowStep(Admitted, kept + [now])
  }

  /** After any check, every stored stamp lies inside the window ending at `now`;
      an admitted check leaves at most `limit` stamps, the last being `now`. */
  lemma CheckKeepsWindow(stamps: seq<int>, c: Category, now: int)
    ensures var w := Check(stamps, c, now);
      && (forall t :: t in w.stamps ==> t > now - WindowMs)
      && (w.decision.Admitted? ==> |w.stamps| <= Limit(c) && w.stamps[|w.stamps| - 1] == now)
  {
  }

  /** A rejected check reports a wait of at least one second, and of at most a
      minute when no stored stamp is later than `now`; it appends nothing. */
  lemma {:induction false} RejectionWait(stamps: seq<int>, c: Category, now: int)
    requires Check(stamps, c, now).decision.Exceeded?
    ensures var w := Check(stamps, c, now);
      && w.stamps == Survivors(stamps, now - WindowMs)
      && |w.stamps| >= Limit(c)
      && w.decision.waitSeconds == WaitSeconds(MinOf(w.stamps), now)
      && w.decision.waitSeconds >= 1
      && ((forall t :: t in stamps ==> t <= now) ==> w.decision.waitSeconds <= 60)
  {
    var w := Check(stamps, c, now);
    var kept := Survivors(stamps, now - WindowMs);
    if forall t :: t in stamps ==> t <= now {
      var oldest := MinOf(kept);
      assert oldest in stamps;
      var wait := WaitSeconds(oldest, now);
      assert 1000 * (wait - 1) < 60000;
    }
  }

  /** The window bound holds as an invariant: a list of at most `limit` stamps has
      at most `limit` stamps after the check, whatever its outcome. */
  lemma CheckPreservesBound(stamps: seq<int>, c: Category, now: int)
    requires |stamps| <= Limit(c)
    ensures |Check(stamps, c, now).stamps| <= Limit(c)
  {
  }

  /** A full window rejects: when `limit` stamps are all inside the window, the
      next check is refused, whatever it is. */
  lemma FullWindowRejects(stamps: seq<int>, c: Category, now: int)
    requires |stamps| == Limit(c)
    requires forall t :: t in stamps ==> t > now - WindowMs
    ensures Check(stamps, c, now).decision.Exceeded?
  {
    SurvivorsOfRecent(stamps, now - WindowMs);
  }

  /** Once every stamp has aged out of the window, a check is admitted again. */
  lemma ElapsedWindowAdmits(stamps: seq<int>, c: Category, now: int)
    requires forall t :: t in stamps ==> t <= now - WindowMs
    ensures Check(stamps, c, now) == WindowStep(Admitted, [now])
  {
    SurvivorsOfStale(stamps, now - WindowMs);
  }

  /** Below the limit, a window of recent stamps admits and gains `now`. */
  lemma RecentBelowLimitAdmits(stamps: seq<int>, c: Category, now: int)
    requires |stamps| < Limit(c)
    requires forall t :: t in stamps ==> t > now - WindowMs
    ensures Check(stamps, c, now) == WindowStep(Admitted, stamps + [now])
  {
    SurvivorsOfRecent(stamps, now - WindowMs);
  }

  // ---------------------------------------------------------------------------
  // Request keys

  /** `JSON.stringify` applied to one character inside a string literal. */
  function EscapeChar(c: char): string {
    if c == '"' then "\\\""
    else if c == '\\' then "\\\\"
    else if c == '\U{8}' then "\\b"
    else if c == '\U{C}' then "\\f"
    else if c == '\n' then "\\n"
    else if c == '\r' then "\\r"
    else if c == '\t' then "\\t"
    else if (c as int) < 0x20 then "\\u00" + [LowerHex((c as int) / 16), LowerHex((c as int) % 16)]
    else [c]
  }

  function LowerHex(d: int): char
    requires 0 <= d < 16
  {
    "0123456789abcdef"[d]
  }

  function JsonEscape(s: string): string
    decreases |s|
  {
    if s == [] then [] else EscapeChar(s[0]) + JsonEscape(s[1..])
  }

  /** `JSON.stringify(s)` for a string `s`. */
  function JsonQuote(s: string): string {
    "\"" + JsonEscape(s) + "\""
  }

  /** `JSON.stringify(options.body || {})`: an absent or empty body is `{}`,
      a body (already JSON text) is quoted once more as a string. */
  function BodyText(body: Option<string>): string {
    if body.Some? && body.value != "" then JsonQuote(body.value) else "{}"
  }

  /** `${method}-${endpoint}-${body}`, the key under which `request` files a call. */
  function RequestKey(httpMethod: Option<string>, endpoint: string, body: Option<string>): string {
    MethodName(httpMethod) + "-" + endpoint + "-" + BodyText(body)
  }

  /** Reading back one escaped character, and what follows it. */
  function UnescapeStep(t: string): (r: Option<(char, string)>)
    ensures r.Some? ==> |r.value.1| < |t|
  {
    if |t| == 0 then None
    else if t[0] != '\\' then Some((t[0], t[1..]))
    else if |t| < 2 then None
    else if t[1] == '"' then Some(('"', t[2..]))
    else if t[1] == '\\' then Some(('\\', t[2..]))
    else if t[1] == 'b' then Some(('\U{8}', t[2..]))
    else if t[1] == 'f' then Some(('\U{C}', t[2..]))
    else if t[1] == 'n' then Some(('\n', t[2..]))
    else if t[1] == 'r' then Some(('\r', t[2..]))
    else if t[1] == 't' then Some(('\t', t[2..]))
    else if |t| >= 6 && t[1] == 'u' && t[2] == '0' && t[3] == '0' && IsLowerHex(t[4]) && IsLowerHex(t[5])
            && HexValue(t[4]) < 2 then
      Some(((HexValue(t[4]) * 16 + HexValue(t[5])) as char, t[6..]))
    else None
  }

  predicate IsLowerHex(c: char) {
    ('0' <= c <= '9') || ('a' <= c <= 'f')
  }

  function HexValue(c: char): (v: nat)
    requires IsLowerHex(c)
    ensures v < 16 && LowerHex(v) == c
  {
    if '0' <= c <= '9' then c as int - '0' as int else c as int - 'a' as int + 10
  }

  /** The inverse of `JsonEscape`. */
  function JsonUnescape(t: string): Option<string>
    decreases |t|
  {
    if t == [] then Some([])
    else match UnescapeStep(t)
      case None => None
      case Some((c, rest)) =>
        match JsonUnescape(rest)
        case None => None
        case Some(s) => Some([c] + s)
  }

  lemma UnescapeEscapeChar(c: char, rest: string)
    ensures UnescapeStep(EscapeChar(c) + rest) == Some((c, rest))
  {
    var t := EscapeChar(c) + rest;
    if c == '"' || c == '\\' || c == '\U{8}' || c == '\U{C}' || c == '\n' || c == '\r' || c == '\t' {
      assert t[2..] == rest;
    } else if (c as int) < 0x20 {
      var n := c as int;
      assert t[6..] == rest;
      assert HexValue(t[4]) == n / 16 && HexValue(t[5]) == n % 16;
      assert (n / 16 * 16 + n % 16) as char == c;
    } else {
      assert t[1..] == rest;
    }
  }

  /** Quoting loses nothing: the escaped text reads back as the original. */
  lemma {:induction false} JsonEscapeRoundTrip(s: string)
    ensures JsonUnescape(JsonEscape(s)) == Some(s)
    decreases |s|
  {
    if s != [] {
      UnescapeEscapeChar(s[0], JsonEscape(s[1..]));
      JsonEscapeRoundTrip(s[1..]);
      assert EscapeChar(s[0]) != [];
      assert [s[0]] + s[1..] == s;
    }
  }

  /** Two requests with the same method and endpoint get the same key exactly
      when their bodies serialise alike; in particular a request without a body
      and one with a body never share a key. */
  lemma {:induction false} KeyDeterminesBody(httpMethod: Option<string>, endpoint: string, b1: Option<string>, b2: Option<string>)
    requires RequestKey(httpMethod, endpoint, b1) == RequestKey(httpMethod, endpoint, b2)
    ensures BodyText(b1) == BodyText(b2)
    ensures (b1.Some? && b1.value != "") ==> b2.Some? && b2.value == b1.value
  {
    var prefix := MethodName(httpMethod) + "-" + endpoint + "-";
    assert RequestKey(httpMethod, endpoint, b1)[|prefix|..] == BodyText(b1);
    assert RequestKey(httpMethod, endpoint, b2)[|prefix|..] == BodyText(b2);
    if b1.Some? && b1.value != "" {
      assert BodyText(b1)[0] == '"';
      assert BodyText(b2)[0] == '"';
      assert BodyText(b2) != "{}";
      var e1 := JsonEscape(b1.value);
      var e2 := JsonEscape(b2.value);
      assert e1 == BodyText(b1)[1..|BodyText(b1)| - 1];
      assert e2 == BodyText(b2)[1..|BodyText(b2)| - 1];
      JsonEscapeRoundTrip(b1.value);
      JsonEscapeRoundTrip(b2.value);
    }
  }

  // ---------------------------------------------------------------------------
  // URLs

  /** `baseURL`, fixed by the one instance the page creates. */
  const BaseUrl: string := "/api"

  /** Continuation bytes of a multi-byte UTF-8 sequence, `10xxxxxx`. */
  predicate IsContinuation(b: int) {
    0x80 <= b < 0xC0
  }

  /** The bytes of a Unicode scalar value in UTF-8: a lead byte that tells the
      length, then six payload bits per continuation byte. */
  function Utf8(c: char): (bytes: seq<int>)
    ensures 1 <= |bytes| <= 4
    ensures forall i :: 0 <= i < |bytes| ==> 0 <= bytes[i] < 256
    ensures (c as int) < 0x80 <==> bytes == [c as int]
    ensures |bytes| == 2 <==> 0x80 <= c as int < 0x800
    ensures |bytes| == 3 <==> 0x800 <= c as int < 0x10000
    ensures |bytes| == 4 <==> 0x10000 <= c as int
    ensures |bytes| == 2 ==> 0xC0 <= bytes[0] < 0xE0
    ensures |bytes| == 3 ==> 0xE0 <= bytes[0] < 0xF0
    ensures |bytes| == 4 ==> 0xF0 <= bytes[0] < 0xF8
    ensures forall i :: 1 <= i < |bytes| ==> IsContinuation(bytes[i])
  {
    var n := c as int;
    if n < 0x80 then [n]
    else if n < 0x800 then [0xC0 + n / 64, 0x80 + n % 64]
    else if n < 0x10000 then [0xE0 + n / 64 / 64, 0x80 + n / 64 % 64, 0x80 + n % 64]
    else [0xF0 + n / 64 / 64 / 64, 0x80 + n / 64 / 64 % 64, 0x80 + n / 64 % 64, 0x80 + n % 64]
  }

  /** The values a `char` can hold: the Unicode scalar values. */
  predicate IsScalar(v: int) {
    (0 <= v < 0xD800) || (0xE000 <= v < 0x110000)
  }

  /** Reading one character back from UTF-8, and the bytes after it. */
  function Utf8Step(bytes: seq<int>): (r: Option<(char, seq<int>)>)
    ensures r.Some? ==> |r.value.1| < |bytes|
  {
    if |bytes| == 0 then None
    else
      var b0 := bytes[0];
      var v :=
        if 0xC0 <= b0 < 0xE0 && |bytes| >= 2 then (b0 - 0xC0) * 64 + (bytes[1] - 0x80)
        else if 0xE0 <= b0 < 0xF0 && |bytes| >= 3 then ((b0 - 0xE0) * 64 + (bytes[1] - 0x80)) * 64 + (bytes[2] - 0x80)
        else if 0xF0 <= b0 < 0xF8 && |bytes| >= 4 then
          (((b0 - 0xF0) * 64 + (bytes[1] - 0x80)) * 64 + (bytes[2] - 0x80)) * 64 + (bytes[3] - 0x80)
        else -1;
      var len := if b0 < 0xE0 then 2 else if b0 < 0xF0 then 3 else 4;
      if 0 <= b0 < 0x80 then Some((b0 as char, bytes[1..]))
      else if 0xC0 <= b0 < 0xF8 && |bytes| >= len && (forall i :: 1 <= i < len ==> IsContinuation(bytes[i]))
              && IsScalar(v) then
        Some((v as char, bytes[len..]))
      else None
  }

  /** UTF-8 is read back unambiguously: the bytes of `c`, followed by anything,
      read as `c` followed by that remainder. */
  lemma Utf8StepInverts(c: char, rest: seq<int>)
    ensures Utf8Step(Utf8(c) + rest) == Some((c, rest))
  {
    var n := c as int;
    var t := Utf8(c) + rest;
    if n < 0x80 {
      assert t[1..] == rest;
    } else if n < 0x800 {
      assert t[2..] == rest;
      assert (n / 64) * 64 + n % 64 == n;
    } else if n < 0x10000 {
      assert t[3..] == rest;
      var a := n / 64;
      assert a * 64 + n % 64 == n;
      assert (a / 64) * 64 + a % 64 == a;
    } else {
      assert t[4..] == rest;
      var a := n / 64;
      var b := a / 64;
      assert a * 64 + n % 64 == n;
      assert b * 64 + a % 64 == a;
      assert (b / 64) * 64 + b % 64 == b;
    }
  }

  /** The UTF-8 bytes of a whole string. */
  function Utf8Of(s: string): (bytes: seq<int>)
    ensures forall i :: 0 <= i < |bytes| ==> 0 <= bytes[i] < 256
    ensures |s| <= |bytes| <= 4 * |s|
    decreases |s|
  {
    if s == [] then [] else Utf8(s[0]) + Utf8Of(s[1..])
  }

  /** The inverse of `Utf8Of`. */
  function Utf8Decode(bytes: seq<int>): Option<string>
    decreases |bytes|
  {
    if bytes == [] then Some([])
    else match Utf8Step(bytes)
      case None => None
      case Some((c, rest)) =>
        match Utf8Decode(rest)
        case None => None
        case Some(s) => Some([c] + s)
  }

  /** Encoding a string to UTF-8 loses nothing. */
  lemma {:induction false} Utf8RoundTrip(s: string)
    ensures Utf8Decode(Utf8Of(s)) == Some(s)
    decreases |s|
  {
    if s != [] {
      Utf8StepInverts(s[0], Utf8Of(s[1..]));
      Utf8RoundTrip(s[1..]);
      assert [s[0]] + s[1..] == s;
    }
  }

  function UpperHex(d: int): char
    requires 0 <= d < 16
  {
    "0123456789ABCDEF"[d]
  }

  predicate IsUpperHex(c: char) {
    ('0' <= c <= '9') || ('A' <= c <= 'F')
  }

  function UpperHexValue(c: char): (v: nat)
    requires IsUpperHex(c)
    ensures v < 16 && UpperHex(v) == c
  {
    if '0' <= c <= '9' then c as int - '0' as int else c as int - 'A' as int + 10
  }

  /** Bytes the form-urlencoded serializer writes as themselves. */
  predicate IsFormSafeByte(b: int) {
    || (0x30 <= b <= 0x39) || (0x41 <= b <= 0x5A) || (0x61 <= b <= 0x7A)
    || b == 0x2A || b == 0x2D || b == 0x2E || b == 0x5F
  }

  /** Characters a form-urlencoded component can contain. */
  predicate IsFormChar(c: char) {
    IsFormSafeByte(c as int) || c == '+' || c == '%'
  }

  /** One byte as the application/x-www-form-urlencoded serializer writes it:
      a space is `+`, a safe byte is itself, any other byte is `%` and two
      upper-case hex digits. */
  function EncodeByte(b: int): (s: string)
    requires 0 <= b < 256
    ensures forall i :: 0 <= i < |s| ==> IsFormChar(s[i])
    ensures b == 0x20 <==> s == "+"
    ensures IsFormSafeByte(b) <==> |s| == 1 && s[0] as int == b
    ensures (b != 0x20 && !IsFormSafeByte(b)) <==> |s| == 3 && s[0] == '%'
  {
    if b == 0x20 then "+"
    else if IsFormSafeByte(b) then [b as char]
    else "%" + [UpperHex(b / 16), UpperHex(b % 16)]
  }

  /** Reading one byte back from serialized text, and the text after it. */
  function FormDecodeStep(t: string): (r: Option<(int, string)>)
    ensures r.Some? ==> |r.value.1| < |t|
  {
    if |t| == 0 then None
    else if t[0] == '+' then Some((0x20, t[1..]))
    else if t[0] == '%' then
      if |t| >= 3 && IsUpperHex(t[1]) && IsUpperHex(t[2]) then
        Some((UpperHexValue(t[1]) * 16 + UpperHexValue(t[2]), t[3..]))
      else None
    else if IsFormSafeByte(t[0] as int) then Some((t[0] as int, t[1..]))
    else None
  }

  /** Each serialized byte reads back as itself, whatever follows it. */
  lemma DecodeEncodeByte(b: int, rest: string)
    requires 0 <= b < 256
    ensures FormDecodeStep(EncodeByte(b) + rest) == Some((b, rest))
  {
    var t := EncodeByte(b) + rest;
    if b == 0x20 || IsFormSafeByte(b) {
      assert t[1..] == rest;
    } else {
      assert t[3..] == rest;
      assert UpperHexValue(t[1]) == b / 16 && UpperHexValue(t[2]) == b % 16;
    }
  }

  function EncodeBytes(bytes: seq<int>): (s: string)
    requires forall i :: 0 <= i < |bytes| ==> 0 <= bytes[i] < 256
    ensures forall i :: 0 <= i < |s| ==> IsFormChar(s[i])
    ensures |bytes| <= |s| <= 3 * |bytes|
    decreases |bytes|
  {
    if bytes == [] then [] else EncodeByte(bytes[0]) + EncodeBytes(bytes[1..])
  }

  /** The inverse of `EncodeBytes`. */
  function FormDecodeBytes(t: string): Option<seq<int>>
    decreases |t|
  {
    if t == [] then Some([])
    else match FormDecodeStep(t)
      case None => None
      case Some((b, rest)) =>
        match FormDecodeBytes(rest)
        case None => None
        case Some(bs) => Some([b] + bs)
  }

  /** Serializing bytes loses nothing. */
  lemma {:induction false} FormBytesRoundTrip(bytes: seq<int>)
    requires forall i :: 0 <= i < |bytes| ==> 0 <= bytes[i] < 256
    ensures FormDecodeBytes(EncodeBytes(bytes)) == Some(bytes)
    decreases |bytes|
  {
    if bytes != [] {
      DecodeEncodeByte(bytes[0], EncodeBytes(bytes[1..]));
      FormBytesRoundTrip(bytes[1..]);
      assert EncodeByte(bytes[0]) != [];
      assert [bytes[0]] + bytes[1..] == bytes;
    }
  }

  /** The application/x-www-form-urlencoded serializer applied to one name or
      value: its UTF-8 bytes, each serialized. The result never holds `&`,
      `=` or `?`, so the separators of the query string stay unambiguous. */
  function FormEncode(s: string): (r: string)
    ensures forall i :: 0 <= i < |r| ==> IsFormChar(r[i])
    ensures |s| <= |r|
  {
    EncodeBytes(Utf8Of(s))
  }

  /** Reading a serialized name or value back. */
  function DecodeComponent(t: string): Option<string> {
    match FormDecodeBytes(t)
    case None => None
    case Some(bytes) => Utf8Decode(bytes)
  }

  /** A serialized name or value reads back as the original string. */
  lemma FormEncodeRoundTrip(s: string)
    ensures DecodeComponent(FormEncode(s)) == Some(s)
  {
    FormBytesRoundTrip(Utf8Of(s));
    Utf8RoundTrip(s);
  }

  /** Different strings serialize differently. */
  lemma FormEncodeInjective(s: string, t: string)
    requires FormEncode(s) == FormEncode(t)
    ensures s == t
  {
    FormEncodeRoundTrip(s);
    FormEncodeRoundTrip(t);
  }

  /** One parameter as `name=value`, both halves encoded. */
  function EncodePair(p: (string, string)): (s: string)
    ensures |s| > |FormEncode(p.0)| && s[|FormEncode(p.0)|] == '='
  {
    FormEncode(p.0) + "=" + FormEncode(p.1)
  }

  /** `new URLSearchParams(params).toString()` for the parameters in their
      insertion order: each pair as `name=value`, joined by `&`. */
  function QueryString(params: seq<(string, string)>): (q: string)
    ensures q == "" <==> params == []
    decreases |params|
  {
    if params == [] then ""
    else if |params| == 1 then EncodePair(params[0])
    else EncodePair(params[0]) + "&" + QueryString(params[1..])
  }

  /** The index of the first `c` in `s`, or `|s|` when there is none. */
  function IndexOf(s: string, c: char): (i: nat)
    ensures i <= |s|
    ensures i < |s| ==> s[i] == c
    ensures forall k :: 0 <= k < i ==> s[k] != c
    decreases |s|
  {
    if s == [] then 0 else if s[0] == c then 0 else 1 + IndexOf(s[1..], c)
  }

  /** Reading back one `name=value` pair. */
  function ParsePair(p: string): Option<(string, string)> {
    var i := IndexOf(p, '=');
    if i == |p| then None
    else
      var name, value := DecodeComponent(p[..i]), DecodeComponent(p[i + 1..]);
      if name.Some? && value.Some? then Some((name.value, value.value)) else None
  }

  /** Reading back a non-empty `&`-separated list of pairs. */
  function ParsePairs(q: string): Option<seq<(string, string)>>
    decreases |q|
  {
    var i := IndexOf(q, '&');
    var pair := ParsePair(q[..i]);
    if pair.None? then None
    else if i == |q| then Some([pair.value])
    else match ParsePairs(q[i + 1..])
      case None => None
      case Some(rest) => Some([pair.value] + rest)
  }

  /** Reading back a query string. */
  function ParseQuery(q: string): Option<seq<(string, string)>> {
    if q == "" then Some([]) else ParsePairs(q)
  }

  /** A serialized pair reads back as the pair. */
  lemma PairRoundTrip(pair: (string, string))
    ensures ParsePair(EncodePair(pair)) == Some(pair)
  {
    var n, v := FormEncode(pair.0), FormEncode(pair.1);
    var p := EncodePair(pair);
    assert p == n + "=" + v;
    assert forall k :: 0 <= k < |n| ==> p[k] == n[k] && IsFormChar(n[k]);
    assert IndexOf(p, '=') == |n|;
    assert p[..|n|] == n && p[|n| + 1..] == v;
    FormEncodeRoundTrip(pair.0);
    FormEncodeRoundTrip(pair.1);
  }

  /** A serialized pair holds no `&`. */
  lemma PairHasNoAmpersand(p: (string, string))
    ensures '&' !in EncodePair(p)
  {
    var n, v := FormEncode(p.0), FormEncode(p.1);
    var pair := EncodePair(p);
    assert pair == n + "=" + v;
    forall k | 0 <= k < |pair| ensures pair[k] != '&' {
      if k < |n| {
        assert pair[k] == n[k] && IsFormChar(n[k]);
      } else if k > |n| {
        assert pair[k] == v[k - |n| - 1] && IsFormChar(v[k - |n| - 1]);
      }
    }
  }

  /** A list of one pair without a separator reads as that pair. */
  lemma ParsePairsSingle(pair: string)
    requires '&' !in pair && ParsePair(pair).Some?
    ensures ParsePairs(pair) == Some([ParsePair(pair).value])
  {
    assert IndexOf(pair, '&') == |pair|;
    assert pair[..|pair|] == pair;
  }

  /** The first separator of `pair & rest` ends `pair` when `pair` has none. */
  lemma ParsePairsCons(pair: string, rest: string)
    requires '&' !in pair && ParsePair(pair).Some? && ParsePairs(rest).Some?
    ensures ParsePairs(pair + "&" + rest) == Some([ParsePair(pair).value] + ParsePairs(rest).value)
  {
    var q := pair + "&" + rest;
    assert q[|pair|] == '&';
    assert forall k :: 0 <= k < |pair| ==> q[k] == pair[k];
    assert IndexOf(q, '&') == |pair|;
    assert q[..|pair|] == pair;
    assert q[|pair| + 1..] == rest;
  }

  lemma {:induction false} PairsRoundTrip(params: seq<(string, string)>)
    requires params != []
    ensures ParsePairs(QueryString(params)) == Some(params)
    decreases |params|
  {
    var pair := EncodePair(params[0]);
    PairHasNoAmpersand(params[0]);
    PairRoundTrip(params[0]);
    if |params| == 1 {
      ParsePairsSingle(pair);
      assert params == [params[0]];
    } else {
      var rest := QueryString(params[1..]);
      PairsRoundTrip(params[1..]);
      ParsePairsCons(pair, rest);
      assert [params[0]] + params[1..] == params;
    }
  }

  /** The query string reads back as the parameters it was built from: no
      name or value can break out of its place. */
  lemma QueryStringRoundTrip(params: seq<(string, string)>)
    ensures ParseQuery(QueryString(params)) == Some(params)
  {
    if params != [] {
      PairsRoundTrip(params);
    }
  }

  /** The URL `get(endpoint, params)` requests: the endpoint alone when there are
      no parameters, otherwise the endpoint, `?` and the query. */
  function GetUrl(endpoint: string, params: seq<(string, string)>): (url: string)
    ensures params == [] ==> url == endpoint
    ensures params != [] ==> url == endpoint + "?" + QueryString(params) && |url| > |endpoint| + 1
  {
    var query := QueryString(params);
    if query != "" then endpoint + "?" + query else endpoint
  }

  // ---------------------------------------------------------------------------
  // Headers

  function DefaultHeaders(): map<string, string> {
    map["Content-Type" := "application/json"]
  }

  /** The headers `executeRequest` hands to `fetch` AS WRITTEN:
      `{ headers: {...defaults, ...options.headers}, ...options }` spreads
      `options` last, so caller headers replace the merged set outright. */
  function ConfigHeadersAsWritten(callerHeaders: Option<map<string, string>>): map<string, string> {
    if callerHeaders.Some? then callerHeaders.value else DefaultHeaders()
  }

  /** A caller header such as Authorization drops Content-Type as written. */
  lemma AsWrittenHeadersDropContentType()
    ensures "Content-Type" !in ConfigHeadersAsWritten(Some(map["Authorization" := "Bearer t"]))
  {
  }

  /** The evidently intended headers: the JSON content type, extended or
      overridden by the caller's headers. */
  function ConfigHeaders(callerHeaders: Option<map<string, string>>): (h: map<string, string>)
    ensures "Content-Type" in h
    ensures callerHeaders.Some? ==> forall k :: k in callerHeaders.value ==> k in h && h[k] == callerHeaders.value[k]
    ensures forall k :: k in h ==> k == "Content-Type" || (callerHeaders.Some? && k in callerHeaders.value)
    ensures (callerHeaders.None? || "Content-Type" !in callerHeaders.value) ==> h["Content-Type"] == "application/json"
  {
    DefaultHeaders() + callerHeaders.GetOr(map[])
  }

  // ---------------------------------------------------------------------------
  // Responses

  /** A settled `fetch`: either the transport failed, or a response arrived.
      `parses` says whether the body is JSON text; `errorField` is the string
      `error` member of that JSON, when it is an object that has one. */
  datatype Response = Response(status: nat, statusText: string, contentType: Option<string>,
                               text: string, parses: bool, errorField: Option<string>)

  datatype Settlement = NetworkFailure(reason: string) | Received(response: Response)

  datatype ClientError =
    | RateLimitExceeded(waitSeconds: nat)
    | HttpError(status: nat, message: string)
    | HtmlInsteadOfJson
    | InvalidJson
    | TransportError(reason: string)

  /** What a caller of `request` receives: the parsed JSON (kept as its text), a
      plain text body, or a failure. */
  datatype Result = Data(json: string) | Text(text: string) | Failed(error: ClientError)

  /** `response.ok`. */
  predicate IsOk(status: nat) {
    200 <= status <= 299
  }

  /** `error.error || "HTTP status: statusText"`. */
  function HttpErrorMessage(r: Response): string {
    if r.parses && r.errorField.Some? && r.errorField.value != "" then r.errorField.value
    else "HTTP " + NatToString(r.status) + ": " + r.statusText
  }

  predicate IsJsonContent(contentType: Option<string>) {
    contentType.Some? && Contains(contentType.value, "application/json")
  }

  /** The decision `executeRequest` makes once `fetch` settles. */
  function Normalize(s: Settlement): (r: Result)
    ensures r.Data? ==> s.Received? && IsOk(s.response.status) && s.response.parses
                        && IsJsonContent(s.response.contentType) && r.json == s.response.text
    ensures r.Text? ==> s.Received? && IsOk(s.response.status) && !IsJsonContent(s.response.contentType)
                        && r.text == s.response.text && (|r.text| == 0 || r.text[0] != '<')
    ensures (s.Received? && !IsOk(s.response.status))
              ==> r == Failed(HttpError(s.response.status, HttpErrorMessage(s.response)))
    ensures s.NetworkFailure? ==> r == Failed(TransportError(s.reason))
    ensures (&& s.Received? && IsOk(s.response.status) && IsJsonContent(s.response.contentType)
             && !s.response.parses) ==> r == Failed(InvalidJson)
    ensures (&& s.Received? && IsOk(s.response.status) && !IsJsonContent(s.response.contentType)
             && |s.response.text| > 0 && s.response.text[0] == '<') ==> r == Failed(HtmlInsteadOfJson)
  {
    match s
    case NetworkFailure(reason) => Failed(TransportError(reason))
    case Received(resp) =>
      if !IsOk(resp.status) then Failed(HttpError(resp.status, HttpErrorMessage(resp)))
      else if IsJsonContent(resp.contentType) then
        if resp.parses then Data(resp.text) else Failed(InvalidJson)
      else if StartsWith(resp.text, "<") then Failed(HtmlInsteadOfJson)
      else Text(resp.text)
  }

  /** The three outcomes of a successful response, each exactly characterised. */
  lemma NormalizeOk(resp: Response)
    requires IsOk(resp.status)
    ensures var r := Normalize(Received(resp));
      && (r.Data? <==> IsJsonContent(resp.contentType) && resp.parses)
      && (r == Failed(HtmlInsteadOfJson) <==> !IsJsonContent(resp.contentType) && |resp.text| > 0 && resp.text[0] == '<')
      && (r.Text? <==> !IsJsonContent(resp.contentType) && (|resp.text| == 0 || resp.text[0] != '<'))
  {
  }

  /** A failed response reports its body's `error` when there is one, otherwise
      the status line; for example a 404 carrying `{"error":"Guest not found"}`
      fails with exactly "Guest not found". */
  lemma HttpErrorUsesBodyMessage(resp: Response, message: string)
    requires !IsOk(resp.status) && resp.parses && resp.errorField == Some(message) && message != ""
    ensures Normalize(Received(resp)) == Failed(HttpError(resp.status, message))
  {
  }

  lemma HttpErrorWithoutBodyMessage(resp: Response)
    requires !IsOk(resp.status) && (!resp.parses || resp.errorField.None?)
    ensures Normalize(Received(resp)) ==
            Failed(HttpError(resp.status, "HTTP " + NatToString(resp.status) + ": " + resp.statusText))
  {
  }

  /** The text a failure carries as `error.message`. An unparseable JSON body
      carries the browser's `SyntaxError` text, whose wording is not modelled;
      a fixed text stands for it. */
  function Message(e: ClientError): string {
    match e
    case RateLimitExceeded(w) => "Rate limit exceeded. Please wait " + NatToString(w) + " seconds."
    case HttpError(_, m) => m
    case HtmlInsteadOfJson => "Server returned HTML instead of JSON - check API configuration"
    case InvalidJson => "Response body is not valid JSON"
    case TransportError(reason) => reason
  }

  /** Notifications raised when a call settles, AS WRITTEN: `request` returns the
      pending promise without awaiting it inside its `try`, so a failure of the
      call never reaches the `catch` that shows the error toast. */
  function SettleNoticesAsWritten(r: Result): seq<string> {
    []
  }

  /** As written, a 404 passes silently, although every page's `catch` relies on
      the client having reported it. */
  lemma AsWrittenHttpErrorIsSilent()
    ensures var r := Normalize(Received(Response(404, "Not Found", Some("application/json"),
                                                 "{\"error\":\"Guest not found\"}", true, Some("Guest not found"))));
      r.Failed? && SettleNoticesAsWritten(r) == []
  {
  }

  /** The evidently intended notifications: each failure of a settled call is
      reported once, with its message, and a success reports nothing. */
  function SettleNotices(r: Result): (n: seq<string>)
    ensures r.Failed? <==> |n| == 1
    ensures r.Failed? ==> n == [Message(r.error)]
    ensures !r.Failed? ==> n == []
  {
    if r.Failed? then [Message(r.error)] else []
  }

  // ---------------------------------------------------------------------------
  // The client object

  /** What `request` is asked to do: `options.method`, `options.body` (JSON text)
      and `options.headers`. */
  datatype Options = Options(httpMethod: Option<string>, body: Option<string>, headers: Option<map<string, string>>)

  /** One call handed to `fetch`; `ticket` numbers the calls in dispatch order
      and stands for the promise that `requestQueue` stores. */
  datatype Dispatch = Dispatch(key: string, url: string, verb: string, body: Option<string>,
                               headers: map<string, string>, ticket: nat)

  datatype Outcome = Rejected(error: ClientError) | Sent(dispatch: Dispatch)

  class Client {
    /** `requestCounts.general` and `requestCounts.write`. */
    var general: seq<int>
    var write: seq<int>
    /** `requestQueue`: request key to the promise of the call filed under it. */
    var requestQueue: map<string, nat>
    /** Number of calls handed to `fetch` so far. */
    var dispatched: nat
    /** Messages shown through the error toast, oldest first. */
    var notices: seq<string>

    function Stamps(c: Category): seq<int>
      reads this
    {
      match c
      case General => general
      case Write => write
    }

    ghost predicate Valid()
      reads this
    {
      && |general| <= Limit(General)
      && |write| <= Limit(Write)
      && forall k :: k in requestQueue ==> requestQueue[k] < dispatched
    }

    constructor ()
      ensures Valid()
      ensures general == [] && write == [] && requestQueue == map[] && dispatched == 0 && notices == []
    {
      general, write := [], [];
      requestQueue := map[];
      dispatched := 0;
      notices := [];
    }

    /** `checkRateLimit(c)`: the category's list becomes the checked window; the
        other category, the key map and the call count are left alone. */
    method CheckRateLimit(c: Category, now: int) returns (r: RateCheck)
      requires Valid()
      modifies this
      ensures Valid()
      ensures var w := Check(old(Stamps(c)), c, now); r == w.decision && Stamps(c) == w.stamps
      ensures Stamps(Other(c)) == old(Stamps(Other(c)))
      ensures requestQueue == old(requestQueue) && dispatched == old(dispatched) && notices == old(notices)
    {
      var w := Check(Stamps(c), c, now);
      CheckPreservesBound(Stamps(c), c, now);
      if c == General {
        general := w.stamps;
      } else {
        write := w.stamps;
      }
      r := w.decision;
    }

    /** The state change one `request(endpoint, options)` makes at time `now`. */
    twostate predicate RequestDone(endpoint: string, options: Options, now: int, out: Outcome)
      reads this
    {
      var c := CategoryOf(options.httpMethod);
      var w := Check(old(Stamps(c)), c, now);
      var key := RequestKey(options.httpMethod, endpoint, options.body);
      && Stamps(c) == w.stamps
      && Stamps(Other(c)) == old(Stamps(Other(c)))
      && (w.decision.Exceeded? ==>
            && out == Rejected(RateLimitExceeded(w.decision.waitSeconds))
            && requestQueue == old(requestQueue)
            && dispatched == old(dispatched)
            && notices == old(notices) + [Message(out.error)])
      && (w.decision.Admitted? ==>
            && out == Sent(Dispatch(key, BaseUrl + endpoint, MethodName(options.httpMethod), options.body,
                                    ConfigHeaders(options.headers), old(dispatched)))
            && requestQueue == old(requestQueue)[key := old(dispatched)]
            && dispatched == old(dispatched) + 1
            && notices == old(notices))
    }

    /** `request(endpoint, options)`: charge the method's category; a rejection
        is reported and changes nothing else. An admitted call is always
        dispatched, even when a call with the same key is still pending: the key
        map is written over, never consulted. */
    method Request(endpoint: string, options: Options, now: int) returns (out: Outcome)
      requires Valid()
      modifies this
      ensures Valid()
      ensures RequestDone(endpoint, options, now, out)
    {
      var c := CategoryOf(options.httpMethod);
      var check := CheckRateLimit(c, now);
      if check.Exceeded? {
        var error := RateLimitExceeded(check.waitSeconds);
        notices := notices + [Message(error)];
        out := Rejected(error);
        return;
      }
      var key := RequestKey(options.httpMethod, endpoint, options.body);
      out := Sent(Dispatch(key, BaseUrl + endpoint, MethodName(options.httpMethod), options.body,
                           ConfigHeaders(options.headers), dispatched));
      requestQueue := requestQueue[key := dispatched];
      dispatched := dispatched + 1;
    }

    method Get(endpoint: string, params: seq<(string, string)>, now: int) returns (out: Outcome)
      requires Valid()
      modifies this
      ensures Valid()
      ensures RequestDone(GetUrl(endpoint, params), Options(None, None, None), now, out)
    {
      out := Request(GetUrl(endpoint, params), Options(None, None, None), now);
    }

    /** `post(endpoint, data)`; `data` is `JSON.stringify(data)`, absent when the
        data is undefined. */
    method Post(endpoint: string, data: Option<string>, now: int) returns (out: Outcome)
      requires Valid()
      modifies this
      ensures Valid()
      ensures RequestDone(endpoint, Options(Some("POST"), data, None), now, out)
    {
      out := Request(endpoint, Options(Some("POST"), data, None), now);
    }

    method Put(endpoint: string, data: Option<string>, now: int) returns (out: Outcome)
      requires Valid()
      modifies this
      ensures Valid()
      ensures RequestDone(endpoint, Options(Some("PUT"), data, None), now, out)
    {
      out := Request(endpoint, Options(Some("PUT"), data, None), now);
    }

    method Delete(endpoint: string, now: int) returns (out: Outcome)
      requires Valid()
      modifies this
      ensures Valid()
      ensures RequestDone(endpoint, Options(Some("DELETE"), None, None), now, out)
    {
      out := Request(endpoint, Options(Some("DELETE"), None, None), now);
    }

    /** The `finally` of a dispatched call: its key leaves the map, whichever call
        the map held under that key, and the caller receives the normalised
        result. */
    method Settle(d: Dispatch, s: Settlement) returns (r: Result)
      requires Valid()
      modifies this
      ensures Valid()
      ensures r == Normalize(s)
      ensures requestQueue == old(requestQueue) - {d.key}
      ensures notices == old(notices) + SettleNotices(r)
      ensures general == old(general) && write == old(write) && dispatched == old(dispatched)
    {
      r := Normalize(s);
      requestQueue := requestQueue - {d.key};
      notices := notices + SettleNotices(r);
    }
  }

  /** Two identical calls in a row are both dispatched: the key map does not
      coalesce them, and they carry different tickets under the same key. */
  method IdenticalCallsBothDispatch(endpoint: string, now: int) returns (first: Outcome, second: Outcome)
    ensures first.Sent? && second.Sent?
    ensures first.dispatch.key == second.dispatch.key
    ensures first.dispatch.ticket == 0 && second.dispatch.ticket == 1
  {
    var client := new Client();
    first := client.Get(endpoint, [], now);
    assert client.general == [now];
    second := client.Get(endpoint, [], now);
  }

  /** Ten writes at one instant on an empty write window: each is admitted, and
      the window ends up holding ten copies of that instant. */
  method FillWriteWindow(client: Client, endpoint: string, now: int)
    requires client.Valid() && client.write == []
    modifies client
    ensures client.Valid()
    ensures |client.write| == 10 && forall t :: t in client.write ==> t == now
    ensures client.general == old(client.general)
  {
    var i := 0;
    while i < 10
      invariant 0 <= i <= 10
      invariant client.Valid()
      invariant |client.write| == i && forall t :: t in client.write ==> t == now
      invariant client.general == old(client.general)
      modifies client
    {
      ghost var before := client.write;
      RecentBelowLimitAdmits(before, Write, now);
      var out := client.Post(endpoint, None, now);
      assert client.write == before + [now];
      i := i + 1;
    }
  }

  /** Ten writes at one instant exhaust the write budget: the eleventh write is
      rejected with a one-minute wait, while a read at the same instant is still
      dispatched. */
  method WriteBudgetIsSeparate(endpoint: string, now: int) returns (eleventh: Outcome, read: Outcome)
    ensures eleventh == Rejected(RateLimitExceeded(60))
    ensures read.Sent?
  {
    var client := new Client();
    FillWriteWindow(client, endpoint, now);
    ghost var full := client.write;
    FullWindowRejects(full, Write, now);
    SurvivorsOfRecent(full, now - WindowMs);
    assert MinOf(full) == now;
    CeilDivUnique(WindowMs, 1000, 60);
    eleventh := client.Post(endpoint, None, now);
    assert client.general == [];
    read := client.Get(endpoint, [], now);
  }
}
