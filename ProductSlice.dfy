/** The product store of `src/store/Slices/productSlice.js`: the URL the
    product-list request goes to, the way all three request thunks turn a
    failure into a rejection value, and the store whose three payloads and three
    status slots the pending / fulfilled / rejected cases overwrite. */
module ProductSlice {
  import opened Wrappers
  import opened Js

  // ---------------------------------------------------------------------------
  // The product-list request URL
  // ---------------------------------------------------------------------------

  /** The argument of `productListApi`. */
  datatype ListParams = ListParams(skip: nat, limit: nat, category: string, q: string)

  /** The three endpoints the list request can go to. */
  datatype Route = SearchRoute | CategoryRoute | ListingRoute

  /** The precedence of the filters: a search text wins over a category, which
      wins over the plain paginated listing. JavaScript tests both strings for
      truthiness, so only the empty string counts as absent. */
  function RouteFor(p: ListParams): (r: Route)
    ensures r == SearchRoute <==> p.q != ""
    ensures r == CategoryRoute <==> p.q == "" && p.category != ""
  {
    if p.q != "" then SearchRoute
    else if p.category != "" then CategoryRoute
    else ListingRoute
  }

  /** The bytes of the UTF-8 encoding of one character. */
  function Utf8Bytes(c: char): (bs: seq<nat>)
    ensures 1 <= |bs| <= 4
    ensures forall i :: 0 <= i < |bs| ==> bs[i] < 256
    ensures c as int < 0x80 ==> bs == [c as int]
  {
    var v := c as int;
    if v < 0x80 then [v]
    else if v < 0x800 then [0xC0 + v / 64, 0x80 + v % 64]
    else if v < 0x10000 then [0xE0 + v / 4096, 0x80 + (v / 64) % 64, 0x80 + v % 64]
    else [0xF0 + v / 262144, 0x80 + (v / 4096) % 64, 0x80 + (v / 64) % 64, 0x80 + v % 64]
  }

  /** The bytes `URLSearchParams` writes unchanged: ASCII letters and digits
      and `*`, `-`, `.`, `_`. */
  predicate UnreservedByte(b: nat) {
    b == 0x2A || b == 0x2D || b == 0x2E || b == 0x5F
    || 0x30 <= b <= 0x39 || 0x41 <= b <= 0x5A || 0x61 <= b <= 0x7A
  }

  /** The characters an encoded query value can contain. None of them is `&`,
      `=`, `#` or a space, so a value can neither add nor split a parameter. */
  predicate QueryChar(c: char) {
    UnreservedByte(c as int) || c == '+' || c == '%'
  }

  function HexDigit(d: nat): (c: char)
    requires d < 16
    ensures QueryChar(c)
  {
    if d < 10 then DigitChar(d) else (('A' as int) + d - 10) as char
  }

  /** The application/x-www-form-urlencoded spelling of one byte: a space
      becomes `+`, an unreserved byte stays, every other byte becomes `%XY`
      with upper-case hexadecimal digits. */
  function EncodeByte(b: nat): (s: string)
    requires b < 256
    ensures forall i :: 0 <= i < |s| ==> QueryChar(s[i])
  {
    if b == 0x20 then "+"
    else if UnreservedByte(b) then [b as char]
    else ['%', HexDigit(b / 16), HexDigit(b % 16)]
  }

  function EncodeBytes(bs: seq<nat>): (s: string)
    requires forall i :: 0 <= i < |bs| ==> bs[i] < 256
    ensures forall i :: 0 <= i < |s| ==> QueryChar(s[i])
  {
    if bs == [] then "" else EncodeByte(bs[0]) + EncodeBytes(bs[1..])
  }

  /** How `URLSearchParams` writes a parameter value: the UTF-8 bytes of each
      character, form-encoded. Whatever the user types, the result contains
      only query-safe characters, and a value made of unreserved characters is
      written as it is. */
  function FormEncode(s: string): (r: string)
    ensures forall i :: 0 <= i < |r| ==> QueryChar(r[i])
    ensures (forall i :: 0 <= i < |s| ==> UnreservedByte(s[i] as int)) ==> r == s
  {
    if s == [] then ""
    else
      var head := EncodeBytes(Utf8Bytes(s[0]));
      assert UnreservedByte(s[0] as int) ==> head == [s[0]] by {
        if UnreservedByte(s[0] as int) {
          assert EncodeBytes([s[0] as int]) == EncodeByte(s[0] as int) + EncodeBytes([]);
        }
      }
      head + FormEncode(s[1..])
  }

  /** `new URLSearchParams({ skip, limit, q }).toString()`. */
  function QueryString(skip: nat, limit: nat, q: string): (r: string)
    ensures |r| > 5 && r[..5] == "skip="
    ensures forall i :: 0 <= i < |r| ==> QueryChar(r[i]) || r[i] == '=' || r[i] == '&'
  {
    "skip=" + NatToString(skip) + "&limit=" + NatToString(limit) + "&q=" + FormEncode(q)
  }

  // ---------------------------------------------------------------------------
  // Reading the query back: form decoding and the `key=value` pairs
  // ---------------------------------------------------------------------------

  /** The UTF-8 bytes of a whole string. */
  function Utf8Encode(s: string): (bs: seq<nat>)
    ensures forall i :: 0 <= i < |bs| ==> bs[i] < 256
  {
    if s == [] then [] else Utf8Bytes(s[0]) + Utf8Encode(s[1..])
  }

  /** The value of a hexadecimal digit of either case. */
  function HexValue(c: char): Option<nat> {
    if '0' <= c <= '9' then Some(c as int - '0' as int)
    else if 'A' <= c <= 'F' then Some(c as int - 'A' as int + 10)
    else if 'a' <= c <= 'f' then Some(c as int - 'a' as int + 10)
    else None
  }

  lemma HexRoundTrip(d: nat)
    requires d < 16
    ensures HexValue(HexDigit(d)) == Some(d)
  {
  }

  function ConsByte(b: nat, rest: Option<seq<nat>>): Option<seq<nat>> {
    if rest.Some? then Some([b] + rest.value) else None
  }

  /** The bytes a form-encoded value stands for: `+` is a space, `%XY` the byte
      with hexadecimal value `XY`, an unreserved character itself. Any other
      character, or a `%` not followed by two hexadecimal digits, is not
      something the encoder writes and makes the value unreadable. */
  function DecodeBytes(s: string): Option<seq<nat>>
    decreases |s|
  {
    if s == [] then Some([])
    else if s[0] == '+' then ConsByte(0x20, DecodeBytes(s[1..]))
    else if s[0] == '%' then
      if |s| < 3 || HexValue(s[1]).None? || HexValue(s[2]).None? then None
      else ConsByte(HexValue(s[1]).value * 16 + HexValue(s[2]).value, DecodeBytes(s[3..]))
    else if UnreservedByte(s[0] as int) then ConsByte(s[0] as int, DecodeBytes(s[1..]))
    else None
  }

  lemma DecodeEncodeByte(b: nat, rest: string)
    requires b < 256
    ensures DecodeBytes(EncodeByte(b) + rest) == ConsByte(b, DecodeBytes(rest))
  {
    var s := EncodeByte(b) + rest;
    if b == 0x20 {
      assert s[0] == '+' && s[1..] == rest;
    } else if UnreservedByte(b) {
      assert s[0] == b as char && s[1..] == rest;
    } else {
      HexRoundTrip(b / 16);
      HexRoundTrip(b % 16);
      assert s[0] == '%' && s[1] == HexDigit(b / 16) && s[2] == HexDigit(b % 16);
      assert s[3..] == rest;
    }
  }

  lemma {:induction false} EncodeBytesConcat(a: seq<nat>, b: seq<nat>)
    requires forall i :: 0 <= i < |a| ==> a[i] < 256
    requires forall i :: 0 <= i < |b| ==> b[i] < 256
    ensures EncodeBytes(a + b) == EncodeBytes(a) + EncodeBytes(b)
  {
    if a == [] {
      assert a + b == b;
    } else {
      assert (a + b)[0] == a[0];
      assert (a + b)[1..] == a[1..] + b;
      EncodeBytesConcat(a[1..], b);
    }
  }

  /** Decoding the encoding of bytes gives the bytes back. */
  lemma {:induction false} DecodeEncodeBytes(bs: seq<nat>)
    requires forall i :: 0 <= i < |bs| ==> bs[i] < 256
    ensures DecodeBytes(EncodeBytes(bs)) == Some(bs)
  {
    if bs == [] {
    } else {
      DecodeEncodeByte(bs[0], EncodeBytes(bs[1..]));
      DecodeEncodeBytes(bs[1..]);
      assert [bs[0]] + bs[1..] == bs;
    }
  }

  predicate Continuation(b: nat) {
    0x80 <= b < 0xC0
  }

  function ConsChar(c: char, rest: Option<string>): Option<string> {
    if rest.Some? then Some([c] + rest.value) else None
  }

  /** UTF-8 decoding. A lead byte announces one to four bytes; an overlong
      form, a surrogate, a value past U+10FFFF or a missing continuation byte
      makes the bytes unreadable. */
  function Utf8Decode(bs: seq<nat>): Option<string>
    decreases |bs|
  {
    if bs == [] then Some("")
    else
      var b0 := bs[0];
      if b0 < 0x80 then ConsChar(b0 as char, Utf8Decode(bs[1..]))
      else if 0xC0 <= b0 < 0xE0 && |bs| >= 2 && Continuation(bs[1]) then
        var v := (b0 - 0xC0) * 64 + (bs[1] - 0x80);
        if v < 0x80 then None else ConsChar(v as char, Utf8Decode(bs[2..]))
      else if 0xE0 <= b0 < 0xF0 && |bs| >= 3 && Continuation(bs[1]) && Continuation(bs[2]) then
        var v := (b0 - 0xE0) * 4096 + (bs[1] - 0x80) * 64 + (bs[2] - 0x80);
        if v < 0x800 || 0xD800 <= v < 0xE000 then None else ConsChar(v as char, Utf8Decode(bs[3..]))
      else if 0xF0 <= b0 < 0xF8 && |bs| >= 4
              && Continuation(bs[1]) && Continuation(bs[2]) && Continuation(bs[3]) then
        var v := (b0 - 0xF0) * 262144 + (bs[1] - 0x80) * 4096 + (bs[2] - 0x80) * 64 + (bs[3] - 0x80);
        if v < 0x10000 || v >= 0x110000 then None else ConsChar(v as char, Utf8Decode(bs[4..]))
      else None
  }

  lemma Utf8DecodeChar(c: char, rest: seq<nat>)
    ensures Utf8Decode(Utf8Bytes(c) + rest) == ConsChar(c, Utf8Decode(rest))
  {
    var v := c as int;
    var bs := Utf8Bytes(c) + rest;
    if v < 0x80 {
      assert bs[0] == v && bs[1..] == rest;
    } else if v < 0x800 {
      assert bs[0] == 0xC0 + v / 64 && bs[1] == 0x80 + v % 64 && bs[2..] == rest;
      assert (v / 64) * 64 + v % 64 == v;
    } else if v < 0x10000 {
      assert bs[0] == 0xE0 + v / 4096 && bs[1] == 0x80 + (v / 64) % 64 && bs[2] == 0x80 + v % 64;
      assert bs[3..] == rest;
      assert v / 4096 == (v / 64) / 64;
      assert (v / 4096) * 4096 + ((v / 64) % 64) * 64 + v % 64 == v;
    } else {
      assert bs[0] == 0xF0 + v / 262144 && bs[1] == 0x80 + (v / 4096) % 64;
      assert bs[2] == 0x80 + (v / 64) % 64 && bs[3] == 0x80 + v % 64;
      assert bs[4..] == rest;
      assert v / 262144 == (v / 4096) / 64;
      assert v / 4096 == (v / 64) / 64;
      assert (v / 262144) * 262144 + ((v / 4096) % 64) * 4096 + ((v / 64) % 64) * 64 + v % 64 == v;
    }
  }

  /** Decoding the UTF-8 bytes of a string gives the string back. */
  lemma {:induction false} Utf8RoundTrip(s: string)
    ensures Utf8Decode(Utf8Encode(s)) == Some(s)
  {
    if s != [] {
      Utf8DecodeChar(s[0], Utf8Encode(s[1..]));
      Utf8RoundTrip(s[1..]);
      assert [s[0]] + s[1..] == s;
    }
  }

  lemma {:induction false} FormEncodeBytes(s: string)
    ensures FormEncode(s) == EncodeBytes(Utf8Encode(s))
  {
    if s != [] {
      FormEncodeBytes(s[1..]);
      EncodeBytesConcat(Utf8Bytes(s[0]), Utf8Encode(s[1..]));
    }
  }

  /** How the server reads a parameter value: form decoding, then UTF-8. */
  function FormDecode(s: string): Option<string> {
    var bs := DecodeBytes(s);
    if bs.None? then None else Utf8Decode(bs.value)
  }

  /** The server reads back exactly the text that was encoded. */
  lemma FormRoundTrip(s: string)
    ensures FormDecode(FormEncode(s)) == Some(s)
  {
    FormEncodeBytes(s);
    DecodeEncodeBytes(Utf8Encode(s));
    Utf8RoundTrip(s);
  }

  /** Different search texts are written differently: in particular a space
      and a `+`, or a `&` and its escape, never collide. */
  lemma FormEncodeInjective(a: string, b: string)
    ensures FormEncode(a) == FormEncode(b) ==> a == b
  {
    FormRoundTrip(a);
    FormRoundTrip(b);
  }

  /** The first index at or after `i` where `s` holds `c`. */
  function IndexFrom(c: char, s: string, i: nat): (r: Option<nat>)
    requires i <= |s|
    ensures r.Some? ==> i <= r.value < |s| && s[r.value] == c
    ensures r.Some? ==> forall k :: i <= k < r.value ==> s[k] != c
    ensures r.None? ==> forall k :: i <= k < |s| ==> s[k] != c
    decreases |s| - i
  {
    if i == |s| then None else if s[i] == c then Some(i) else IndexFrom(c, s, i + 1)
  }

  predicate Lacks(c: char, s: string) {
    forall k :: 0 <= k < |s| ==> s[k] != c
  }

  lemma FirstSeparator(c: char, a: string, b: string)
    requires Lacks(c, a)
    ensures IndexFrom(c, a + [c] + b, 0) == Some(|a|)
  {
    var s := a + [c] + b;
    assert s[|a|] == c;
  }

  /** The pieces of `s` between the separators `c`. */
  function SplitOn(c: char, s: string): seq<string>
    decreases |s|
  {
    var i := IndexFrom(c, s, 0);
    if i.None? then [s] else [s[..i.value]] + SplitOn(c, s[i.value + 1..])
  }

  lemma SplitOnLacking(c: char, a: string)
    requires Lacks(c, a)
    ensures SplitOn(c, a) == [a]
  {
  }

  lemma SplitOnJoin(c: char, a: string, b: string)
    requires Lacks(c, a)
    ensures SplitOn(c, a + [c] + b) == [a] + SplitOn(c, b)
  {
    var s := a + [c] + b;
    FirstSeparator(c, a, b);
    assert s[..|a|] == a;
    assert s[|a| + 1..] == b;
  }

  /** One `key=value` pair: the key runs up to the first `=`; a piece with no
      `=` is a key with the empty value. */
  function Pair(piece: string): (string, string) {
    var i := IndexFrom('=', piece, 0);
    if i.None? then (piece, "") else (piece[..i.value], piece[i.value + 1..])
  }

  lemma PairOf(key: string, value: string)
    requires Lacks('=', key)
    ensures Pair(key + "=" + value) == (key, value)
  {
    var s := key + "=" + value;
    assert s == key + ['='] + value;
    FirstSeparator('=', key, value);
    assert s[..|key|] == key;
    assert s[|key| + 1..] == value;
  }

  /** The raw value of the first piece whose key is `key`. */
  function Lookup(pieces: seq<string>, key: string): Option<string> {
    if pieces == [] then None
    else if Pair(pieces[0]).0 == key then Some(Pair(pieces[0]).1)
    else Lookup(pieces[1..], key)
  }

  /** `new URLSearchParams(query).get(key)` on the server, before decoding. */
  function QueryParam(query: string, key: string): Option<string> {
    Lookup(SplitOn('&', query), key)
  }

  /** A parameter the server reads as a number. */
  function ReadNat(query: string, key: string): Option<nat> {
    var raw := QueryParam(query, key);
    if raw.None? then None
    else
      var text := FormDecode(raw.value);
      if text.Some? && IsDigits(text.value) then Some(DecimalValue(text.value)) else None
  }

  /** A parameter the server reads as text. */
  function ReadText(query: string, key: string): Option<string> {
    var raw := QueryParam(query, key);
    if raw.None? then None else FormDecode(raw.value)
  }

  /** None of the three pieces contains a separator. */
  lemma PiecesLackSeparator(skip: nat, limit: nat, q: string)
    ensures Lacks('&', "skip=" + NatToString(skip))
    ensures Lacks('&', "limit=" + NatToString(limit))
    ensures Lacks('&', "q=" + FormEncode(q))
  {
    DigitsUnreserved(NatToString(skip));
    DigitsUnreserved(NatToString(limit));
  }

  lemma SplitThree(a: string, b: string, c: string)
    requires Lacks('&', a) && Lacks('&', b) && Lacks('&', c)
    ensures SplitOn('&', a + "&" + b + "&" + c) == [a, b, c]
  {
    assert a + "&" + b + "&" + c == a + ['&'] + (b + ['&'] + c);
    SplitOnJoin('&', a, b + ['&'] + c);
    SplitOnJoin('&', b, c);
    SplitOnLacking('&', c);
  }

  lemma QueryStringPieces(skip: nat, limit: nat, q: string)
    ensures SplitOn('&', QueryString(skip, limit, q))
              == ["skip=" + NatToString(skip), "limit=" + NatToString(limit), "q=" + FormEncode(q)]
  {
    var a, b, c := "skip=" + NatToString(skip), "limit=" + NatToString(limit), "q=" + FormEncode(q);
    PiecesLackSeparator(skip, limit, q);
    assert QueryString(skip, limit, q) == a + "&" + b + "&" + c;
    SplitThree(a, b, c);
  }

  lemma DigitsUnreserved(s: string)
    requires IsDigits(s)
    ensures forall k :: 0 <= k < |s| ==> UnreservedByte(s[k] as int)
  {
  }

  /** The server reads back the numbers that were sent. */
  lemma NatReadsBack(n: nat)
    ensures FormDecode(NatToString(n)) == Some(NatToString(n))
    ensures DecimalValue(NatToString(n)) == n
  {
    DigitsUnreserved(NatToString(n));
    FormRoundTrip(NatToString(n));
    DecimalRoundTrip(n);
  }

  lemma LookupThree(a: string, b: string, c: string, ka: string, kb: string, kc: string)
    requires Pair(a).0 == ka && Pair(b).0 == kb && Pair(c).0 == kc
    requires ka != kb && ka != kc && kb != kc
    ensures Lookup([a, b, c], ka) == Some(Pair(a).1)
    ensures Lookup([a, b, c], kb) == Some(Pair(b).1)
    ensures Lookup([a, b, c], kc) == Some(Pair(c).1)
  {
    assert [a, b, c][1..] == [b, c];
    assert [b, c][1..] == [c];
    assert Lookup([b, c], kc) == Lookup([c], kc);
  }

  lemma ThreeParams(x: string, y: string, z: string)
    requires Lacks('&', "skip=" + x) && Lacks('&', "limit=" + y) && Lacks('&', "q=" + z)
    ensures QueryParam("skip=" + x + "&limit=" + y + "&q=" + z, "skip") == Some(x)
    ensures QueryParam("skip=" + x + "&limit=" + y + "&q=" + z, "limit") == Some(y)
    ensures QueryParam("skip=" + x + "&limit=" + y + "&q=" + z, "q") == Some(z)
  {
    var a, b, c := "skip=" + x, "limit=" + y, "q=" + z;
    assert "skip=" + x + "&limit=" + y + "&q=" + z == a + "&" + b + "&" + c;
    SplitThree(a, b, c);
    PairOf("skip", x);
    PairOf("limit", y);
    PairOf("q", z);
    assert a == "skip" + "=" + x;
    assert b == "limit" + "=" + y;
    assert c == "q" + "=" + z;
    LookupThree(a, b, c, "skip", "limit", "q");
  }

  /** The raw values the server finds under the three keys. */
  lemma QueryParams(skip: nat, limit: nat, q: string)
    ensures QueryParam(QueryString(skip, limit, q), "skip") == Some(NatToString(skip))
    ensures QueryParam(QueryString(skip, limit, q), "limit") == Some(NatToString(limit))
    ensures QueryParam(QueryString(skip, limit, q), "q") == Some(FormEncode(q))
  {
    PiecesLackSeparator(skip, limit, q);
    ThreeParams(NatToString(skip), NatToString(limit), FormEncode(q));
  }

  /** Whatever the search text, the server reads `skip`, `limit` and `q` back
      from the query string as exactly the values that were sent. */
  lemma QueryStringReadsBack(skip: nat, limit: nat, q: string)
    ensures ReadNat(QueryString(skip, limit, q), "skip") == Some(skip)
    ensures ReadNat(QueryString(skip, limit, q), "limit") == Some(limit)
    ensures ReadText(QueryString(skip, limit, q), "q") == Some(q)
  {
    QueryParams(skip, limit, q);
    NatReadsBack(skip);
    NatReadsBack(limit);
    FormRoundTrip(q);
  }

  /** The URL `productListApi` requests, below the configured base URL. The
      category endpoint is written without encoding and carries no paging. */
  function ListUrl(base: string, p: ListParams): (url: string)
    ensures |url| > |base| + 1 && url[..|base| + 1] == base + "/"
    ensures RouteFor(p) != CategoryRoute ==>
              var query := QueryString(p.skip, p.limit, p.q);
              |url| > |query| && url[|url| - |query|..] == query && url[|url| - |query| - 1] == '?'
    ensures RouteFor(p) == CategoryRoute ==>
              |url| > |p.category| && url[|url| - |p.category|..] == p.category
    ensures RouteFor(p) == SearchRoute ==> |url| == |base| + 9 + |QueryString(p.skip, p.limit, p.q)|
    ensures RouteFor(p) == ListingRoute ==> |url| == |base| + 2 + |QueryString(p.skip, p.limit, p.q)|
    ensures RouteFor(p) == CategoryRoute ==> |url| == |base| + 10 + |p.category|
  {
    match RouteFor(p)
    case SearchRoute => base + "/search/?" + QueryString(p.skip, p.limit, p.q)
    case CategoryRoute => base + "/category/" + p.category
    case ListingRoute => base + "/?" + QueryString(p.skip, p.limit, p.q)
  }

  /** Which endpoint a URL below `base` addresses, read from its path. */
  function RouteOf(base: string, url: string): Option<Route> {
    if |url| <= |base| || url[..|base| + 1] != base + "/" then None
    else PathRoute(url[|base| + 1..])
  }

  function PathRoute(path: string): Option<Route> {
    if |path| >= 8 && path[..8] == "search/?" then Some(SearchRoute)
    else if |path| >= 9 && path[..9] == "category/" then Some(CategoryRoute)
    else if |path| >= 1 && path[0] == '?' then Some(ListingRoute)
    else None
  }

  lemma RouteOfBelowBase(base: string, path: string)
    ensures RouteOf(base, base + "/" + path) == PathRoute(path)
  {
    var url := base + "/" + path;
    assert url[..|base| + 1] == base + "/";
    assert url[|base| + 1..] == path;
  }

  lemma PathRoutes(rest: string)
    ensures PathRoute("search/?" + rest) == Some(SearchRoute)
    ensures PathRoute("category/" + rest) == Some(CategoryRoute)
    ensures PathRoute("?" + rest) == Some(ListingRoute)
  {
    assert ("search/?" + rest)[..8] == "search/?";
    var c := "category/" + rest;
    assert c[..9] == "category/";
    assert c[..8][0] == 'c';
    var l := "?" + rest;
    assert l[0] == '?';
    assert |l| >= 8 ==> l[..8][0] == '?';
    assert |l| >= 9 ==> l[..9][0] == '?';
  }

  lemma SearchEndpoint(base: string, rest: string)
    ensures RouteOf(base, base + "/search/?" + rest) == Some(SearchRoute)
  {
    PathRoutes(rest);
    assert "/search/?" == "/" + "search/?";
    assert base + "/search/?" + rest == base + "/" + ("search/?" + rest);
    RouteOfBelowBase(base, "search/?" + rest);
  }

  lemma CategoryEndpoint(base: string, rest: string)
    ensures RouteOf(base, base + "/category/" + rest) == Some(CategoryRoute)
  {
    PathRoutes(rest);
    assert "/category/" == "/" + "category/";
    assert base + "/category/" + rest == base + "/" + ("category/" + rest);
    RouteOfBelowBase(base, "category/" + rest);
  }

  lemma ListingEndpoint(base: string, rest: string)
    ensures RouteOf(base, base + "/?" + rest) == Some(ListingRoute)
  {
    PathRoutes(rest);
    assert "/?" == "/" + "?";
    assert base + "/?" + rest == base + "/" + ("?" + rest);
    RouteOfBelowBase(base, "?" + rest);
  }

  /** The three URLs are told apart by their path: the endpoint that receives
      the request is the one the precedence rule chose. */
  lemma ListUrlRoute(base: string, p: ListParams)
    ensures RouteOf(base, ListUrl(base, p)) == Some(RouteFor(p))
  {
    SearchEndpoint(base, QueryString(p.skip, p.limit, p.q));
    CategoryEndpoint(base, p.category);
    ListingEndpoint(base, QueryString(p.skip, p.limit, p.q));
  }

  /** A non-empty search text selects the search endpoint whatever the
      category is: the category does not reach the URL. */
  lemma SearchIgnoresCategory(base: string, p: ListParams, category: string)
    requires p.q != ""
    ensures ListUrl(base, p) == ListUrl(base, p.(category := category))
    ensures RouteOf(base, ListUrl(base, p)) == Some(SearchRoute)
  {
    ListUrlRoute(base, p);
  }

  /** With no search text and a category, the request sends neither skip nor
      limit: every paging argument gives the same URL. */
  lemma CategoryIgnoresPaging(base: string, p: ListParams, skip: nat, limit: nat)
    requires p.q == "" && p.category != ""
    ensures ListUrl(base, p) == ListUrl(base, p.(skip := skip, limit := limit))
    ensures ListUrl(base, p) == base + "/category/" + p.category
  {
  }

  /** Occurrences of `c` in `s`. */
  function Count(c: char, s: string): nat {
    if s == [] then 0 else (if s[0] == c then 1 else 0) + Count(c, s[1..])
  }

  lemma {:induction false} CountConcat(c: char, a: string, b: string)
    ensures Count(c, a + b) == Count(c, a) + Count(c, b)
  {
    if a == [] {
      assert a + b == b;
    } else {
      assert (a + b)[0] == a[0];
      assert (a + b)[1..] == a[1..] + b;
      CountConcat(c, a[1..], b);
    }
  }

  lemma {:induction false} CountAbsent(c: char, s: string)
    requires Lacks(c, s)
    ensures Count(c, s) == 0
  {
    if s != [] {
      CountAbsent(c, s[1..]);
    }
  }

  /** The query string always holds exactly the three parameters `skip`,
      `limit` and `q`: whatever the search text, it has two `&` separators. */
  lemma QueryHasThreeParams(skip: nat, limit: nat, q: string)
    ensures Count('&', QueryString(skip, limit, q)) == 2
  {
    var s1, s2, e := NatToString(skip), NatToString(limit), FormEncode(q);
    CountAbsent('&', "skip=");
    CountAbsent('&', s1);
    CountAbsent('&', "limit=");
    CountAbsent('&', s2);
    CountAbsent('&', "q=");
    CountAbsent('&', e);
    assert Count('&', "&") == 1;
    CountConcat('&', "skip=", s1);
    CountConcat('&', "skip=" + s1, "&limit=");
    CountConcat('&', "&", "limit=");
    CountConcat('&', "skip=" + s1 + "&limit=", s2);
    CountConcat('&', "skip=" + s1 + "&limit=" + s2, "&q=");
    CountConcat('&', "&", "q=");
    CountConcat('&', "skip=" + s1 + "&limit=" + s2 + "&q=", e);
  }

  // ---------------------------------------------------------------------------
  // The shared catch block: from a failed request to a rejection value
  // ---------------------------------------------------------------------------

  /** An HTTP response as axios delivers it. */
  datatype Response = Response(status: int, data: Json)

  /** What a request thunk's `catch` receives: an axios error (with the
      server's response when there was one) or the `Error` the thunk throws
      itself, which has no response. */
  datatype Thrown = Thrown(response: Option<Response>, name: string, message: string)

  /** How the awaited `axios.get` ended. */
  datatype HttpOutcome = Answered(response: Response) | Threw(error: Thrown)

  /** The value handed to `rejectWithValue`. */
  datatype RejectValue = RejectValue(status: int, message: Json, errors: Json)

  /** How a thunk settles: its `fulfilled` payload, or its `rejected` value. */
  datatype ThunkResult = Fulfilled(payload: Json) | Rejected(reason: RejectValue)

  /** `Error.prototype.toString()`. */
  function ErrorText(e: Thrown): (text: string)
    ensures text == "" <==> e.name == "" && e.message == ""
    ensures e.name != "" ==> |text| >= |e.name| && text[..|e.name|] == e.name
    ensures e.message != "" ==> |text| >= |e.message| && text[|text| - |e.message|..] == e.message
  {
    if e.name == "" then e.message
    else if e.message == "" then e.name
    else e.name + ": " + e.message
  }

  /** `response.data.message` when it is truthy. */
  function ServerMessage(r: Response): (m: Option<Json>)
    ensures m.Some? <==> Prop(r.data, "message").Some? && Truthy(Prop(r.data, "message").value)
    ensures m.Some? ==> m == Prop(r.data, "message")
  {
    var m := Prop(r.data, "message");
    if m.Some? && Truthy(m.value) then m else None
  }

  /** The catch block shared by the three thunks. The status is the
      response's, or 410 when the failure carries no response; `errors` is the
      body's `errors` unless that is missing or null, in which case it is the
      empty string; the message falls back from the body's truthy `message`
      to the error's own message and then to the error's text. */
  function Normalise(e: Thrown): (r: RejectValue)
    ensures e.response.None? ==> r.status == 410 && r.errors == JStr("")
    ensures e.response.Some? ==> r.status == e.response.value.status
    ensures r.errors != JNull
    ensures e.response.Some? && Prop(e.response.value.data, "errors").Some?
              && Prop(e.response.value.data, "errors").value != JNull ==>
              r.errors == Prop(e.response.value.data, "errors").value
    ensures e.response.Some? && (Prop(e.response.value.data, "errors").None?
              || Prop(e.response.value.data, "errors").value == JNull) ==>
              r.errors == JStr("")
    ensures e.response.Some? && ServerMessage(e.response.value).Some? ==>
              r.message == ServerMessage(e.response.value).value
    ensures (e.response.None? || ServerMessage(e.response.value).None?) && e.message != "" ==>
              r.message == JStr(e.message)
    ensures (e.response.None? || ServerMessage(e.response.value).None?) && e.message == "" ==>
              r.message == JStr(ErrorText(e))
    ensures Truthy(r.message) <==> (e.response.Some? && ServerMessage(e.response.value).Some?)
                                   || e.message != "" || e.name != ""
  {
    var fromServer := if e.response.Some? then ServerMessage(e.response.value) else None;
    var message :=
      if fromServer.Some? then fromServer.value
      else if e.message != "" then JStr(e.message)
      else JStr(ErrorText(e));
    var status := if e.response.Some? then e.response.value.status else 410;
    var errorsProp := if e.response.Some? then Prop(e.response.value.data, "errors") else None;
    var errors := if errorsProp.Some? && errorsProp.value != JNull then errorsProp.value else JStr("");
    RejectValue(status, message, errors)
  }

  /** The body of a request thunk after `axios.get` settles. A 200 answer
      fulfils with the body; any other answer that reaches the thunk makes it
      throw `new Error(message || 'Error occurred')`, which the catch block
      then normalises; a thrown request error goes straight to the catch. */
  function Settle(o: HttpOutcome): (r: ThunkResult)
    ensures r.Fulfilled? <==> o.Answered? && o.response.status == 200
    ensures r.Fulfilled? ==> r.payload == o.response.data
    ensures o.Threw? ==> r == Rejected(Normalise(o.error))
  {
    match o
    case Answered(resp) =>
      if resp.status == 200 then Fulfilled(resp.data)
      else
        var m := ServerMessage(resp).GetOr(JStr("Error occurred"));
        Rejected(Normalise(Thrown(None, "Error", StringOf(m))))
    case Threw(e) => Rejected(Normalise(e))
  }

  /** An answer other than 200 is rejected with status 410 and empty `errors`,
      because the `Error` the thunk throws has no response; its message is the
      server's string message, or `'Error occurred'` when the body has none. */
  lemma NonOkAnswerRejected(resp: Response)
    requires resp.status != 200
    ensures Settle(Answered(resp)).Rejected?
    ensures Settle(Answered(resp)).reason.status == 410
    ensures Settle(Answered(resp)).reason.errors == JStr("")
    ensures ServerMessage(resp).None? ==>
              Settle(Answered(resp)).reason.message == JStr("Error occurred")
    ensures ServerMessage(resp).Some? && ServerMessage(resp).value.JStr? ==>
              Settle(Answered(resp)).reason.message == ServerMessage(resp).value
    ensures ServerMessage(resp).Some? && StringOf(ServerMessage(resp).value) != "" ==>
              Settle(Answered(resp)).reason.message == JStr(StringOf(ServerMessage(resp).value))
    ensures ServerMessage(resp).Some? && StringOf(ServerMessage(resp).value) == "" ==>
              Settle(Answered(resp)).reason.message == JStr("Error")
  {
  }

  // ---------------------------------------------------------------------------
  // The store
  // ---------------------------------------------------------------------------

  /** A status slot. `Idle` is the source's empty string. */
  datatype ApiStatus = Idle | Loading | Succeeded | Failed

  /** A snapshot of the whole store. */
  datatype SliceState = SliceState(
    productList: Json,
    productCategories: Json,
    productDetail: Json,
    listStatus: ApiStatus,
    categoryStatus: ApiStatus,
    detailStatus: ApiStatus)

  const EmptyList: Json := JArr([])
  const EmptyDetail: Json := JObj(map[])

  /** `initialState`: empty payloads and three empty status strings. */
  const InitialState := SliceState(EmptyList, EmptyList, EmptyDetail, Idle, Idle, Idle)

  /** A payload is at its empty value whenever its slot is idle or failed. */
  predicate Consistent(s: SliceState) {
    && (s.listStatus in {Idle, Failed} ==> s.productList == EmptyList)
    && (s.categoryStatus in {Idle, Failed} ==> s.productCategories == EmptyList)
    && (s.detailStatus in {Idle, Failed} ==> s.productDetail == EmptyDetail)
  }

  class ProductStore {
    var productList: Json
    var productCategories: Json
    var productDetail: Json
    var listStatus: ApiStatus
    var categoryStatus: ApiStatus
    var detailStatus: ApiStatus

    function State(): SliceState
      reads this
    {
      SliceState(productList, productCategories, productDetail,
                 listStatus, categoryStatus, detailStatus)
    }

    ghost predicate Valid()
      reads this
    {
      Consistent(State())
    }

    constructor ()
      ensures Valid() && State() == InitialState
    {
      productList, productCategories, productDetail := EmptyList, EmptyList, EmptyDetail;
      listStatus, categoryStatus, detailStatus := Idle, Idle, Idle;
    }

    /** `reset`: whatever the state, the store is `initialState` again. */
    method Reset()
      modifies this
      ensures Valid() && State() == InitialState
    {
      productList, productCategories, productDetail := EmptyList, EmptyList, EmptyDetail;
      listStatus, categoryStatus, detailStatus := Idle, Idle, Idle;
    }

    method DetailPending()
      requires Valid()
      modifies this
      ensures Valid() && State() == old(State()).(detailStatus := Loading)
    {
      detailStatus := Loading;
    }

    method DetailFulfilled(payload: Json)
      requires Valid()
      modifies this
      ensures Valid()
      ensures State() == old(State()).(productDetail := payload, detailStatus := Succeeded)
    {
      productDetail := payload;
      detailStatus := Succeeded;
    }

    method DetailRejected()
      requires Valid()
      modifies this
      ensures Valid()
      ensures State() == old(State()).(productDetail := EmptyDetail, detailStatus := Failed)
    {
      productDetail := EmptyDetail;
      detailStatus := Failed;
    }

    method CategoryPending()
      requires Valid()
      modifies this
      ensures Valid() && State() == old(State()).(categoryStatus := Loading)
    {
      categoryStatus := Loading;
    }

    method CategoryFulfilled(payload: Json)
      requires Valid()
      modifies this
      ensures Valid()
      ensures State() == old(State()).(productCategories := payload, categoryStatus := Succeeded)
    {
      productCategories := payload;
      categoryStatus := Succeeded;
    }

    method CategoryRejected()
      requires Valid()
      modifies this
      ensures Valid()
      ensures State() == old(State()).(productCategories := EmptyList, categoryStatus := Failed)
    {
      productCategories := EmptyList;
      categoryStatus := Failed;
    }

    method ListPending()
      requires Valid()
      modifies this
      ensures Valid() && State() == old(State()).(listStatus := Loading)
    {
      listStatus := Loading;
    }

    method ListFulfilled(payload: Json)
      requires Valid()
      modifies this
      ensures Valid()
      ensures State() == old(State()).(productList := payload, listStatus := Succeeded)
    {
      productList := payload;
      listStatus := Succeeded;
    }

    method ListRejected()
      requires Valid()
      modifies this
      ensures Valid()
      ensures State() == old(State()).(productList := EmptyList, listStatus := Failed)
    {
      productList := EmptyList;
      listStatus := Failed;
    }
  }
}
