/** Data URLs (RFC 2397, section 3): the tolerant parser, and the builder that always writes base64. */
module DataUrl {
  import opened Options
  import opened Base64

  /** A parsed data URL. */
  datatype Url = Url(mime: string, params: seq<string>, payload: seq<Byte>, isBase64: bool)

  // ---------------------------------------------------------------- strings

  predicate IsSpace(c: char) {
    var n := c as int;
    || 9 <= n <= 13 || 28 <= n <= 32 || n == 0x85 || n == 0xa0 || n == 0x1680 || 0x2000 <= n <= 0x200a
    || n == 0x2028 || n == 0x2029 || n == 0x202f || n == 0x205f || n == 0x3000
  }

  function StripLeft(s: string): string {
    if s != "" && IsSpace(s[0]) then StripLeft(s[1..]) else s
  }

  function StripRight(s: string): string {
    if s != "" && IsSpace(s[|s| - 1]) then StripRight(s[..|s| - 1]) else s
  }

  function Strip(s: string): string {
    StripRight(StripLeft(s))
  }

  predicate Stripped(s: string) {
    s == "" || (!IsSpace(s[0]) && !IsSpace(s[|s| - 1]))
  }

  lemma {:induction false} StripLeftSpec(s: string)
    ensures var r := StripLeft(s); |r| <= |s| && r == s[|s| - |r|..] && (r == "" || !IsSpace(r[0]))
  {
    if s != "" && IsSpace(s[0]) { StripLeftSpec(s[1..]); }
  }

  lemma {:induction false} StripRightSpec(s: string)
    ensures var r := StripRight(s); |r| <= |s| && r == s[..|r|] && (r == "" || !IsSpace(r[|r| - 1]))
  {
    if s != "" && IsSpace(s[|s| - 1]) { StripRightSpec(s[..|s| - 1]); }
  }

  lemma StripSpec(s: string)
    ensures Stripped(Strip(s))
    ensures forall c | c in Strip(s) :: c in s
    ensures Stripped(s) ==> Strip(s) == s
  {
    var left := StripLeft(s);
    StripLeftSpec(s);
    StripRightSpec(left);
    assert forall c | c in Strip(s) :: c in left;
  }

  function LowerChar(c: char): char {
    if 'A' <= c <= 'Z' then (c as int + 32) as char else c
  }

  function Lower(s: string): (r: string)
    ensures |r| == |s|
  {
    seq(|s|, i requires 0 <= i < |s| => LowerChar(s[i]))
  }

  lemma LowerSpec(s: string)
    ensures Lower(Lower(s)) == Lower(s)
    ensures forall c: char | !('a' <= c <= 'z') && c in Lower(s) :: c in s
    ensures forall c: char | !('A' <= c <= 'Z') && c in s :: c in Lower(s)
    ensures Stripped(s) ==> Stripped(Lower(s))
  {
    forall c: char | !('a' <= c <= 'z') && c in Lower(s) ensures c in s {
      var i :| 0 <= i < |s| && Lower(s)[i] == c;
      assert s[i] == c;
    }
    forall c: char | !('A' <= c <= 'Z') && c in s ensures c in Lower(s) {
      var i :| 0 <= i < |s| && s[i] == c;
      assert Lower(s)[i] == c;
    }
  }

  /** The place of the first comma, or the end. */
  function FirstComma(s: string): (i: nat)
    ensures i <= |s| && (i < |s| ==> s[i] == ',') && forall k | 0 <= k < i :: s[k] != ','
  {
    if s == "" || s[0] == ',' then 0 else 1 + FirstComma(s[1..])
  }

  function LastSemicolon(s: string): (i: int)
    ensures -1 <= i < |s| && (i >= 0 ==> s[i] == ';') && forall k | i < k < |s| :: s[k] != ';'
  {
    if s == "" then -1
    else if s[|s| - 1] == ';' then |s| - 1
    else LastSemicolon(s[..|s| - 1])
  }

  function Split(s: string): seq<string> {
    var i := LastSemicolon(s);
    if i < 0 then [s] else Split(s[..i]) + [s[i + 1..]]
  }

  function Join(xs: seq<string>): string
    requires xs != []
  {
    if |xs| == 1 then xs[0] else Join(xs[..|xs| - 1]) + ";" + xs[|xs| - 1]
  }

  lemma SplitAppend(a: string, b: string)
    requires ';' !in b
    ensures Split(a + ";" + b) == Split(a) + [b]
  {
    var s := a + ";" + b;
    assert s[|a|] == ';' && forall k | |a| < k < |s| :: s[k] == b[k - |a| - 1];
    assert s[..|a|] == a && s[|a| + 1..] == b;
  }

  lemma CommaAt(a: string, b: string)
    requires ',' !in a
    ensures FirstComma(a + "," + b) == |a|
  {
    var s := a + "," + b;
    assert s[|a|] == ',' && forall k | 0 <= k < |a| :: s[k] == a[k];
  }

  lemma {:induction false} SplitJoin(m: string, xs: seq<string>)
    requires xs != [] && forall x | x in xs :: ';' !in x
    ensures Split(m + ";" + Join(xs)) == Split(m) + xs
    decreases |xs|
  {
    hide Split;
    var front, last := xs[..|xs| - 1], xs[|xs| - 1];
    assert last in xs && xs == front + [last];
    if front == [] {
      SplitAppend(m, last);
      assert Join(xs) == last;
    } else {
      SplitJoin(m, front);
      SplitAppend(m + ";" + Join(front), last);
      assert m + ";" + Join(xs) == m + ";" + Join(front) + ";" + last by {
        assert Join(xs) == Join(front) + ";" + last;
      }
    }
  }

  // ---------------------------------------------------------------- percent-encoding (RFC 3986, section 2.1)

  /** UTF-8 (RFC 3629, section 3). */
  function Utf8Char(c: char): (r: seq<Byte>)
    ensures r != [] && ((c as int) < 128 ==> r == [c as int])
  {
    var n := c as int;
    if n < 0x80 then [n]
    else if n < 0x800 then [0xc0 + n / 0x40, 0x80 + n % 0x40]
    else if n < 0x10000 then [0xe0 + n / 0x1000, 0x80 + n / 0x40 % 0x40, 0x80 + n % 0x40]
    else [0xf0 + n / 0x40000, 0x80 + n / 0x1000 % 0x40, 0x80 + n / 0x40 % 0x40, 0x80 + n % 0x40]
  }

  function Utf8(s: string): seq<Byte> {
    if s == "" then [] else Utf8Char(s[0]) + Utf8(s[1..])
  }

  function HexValue(b: Byte): Option<Nibble> {
    if 48 <= b <= 57 then Some(b - 48)
    else if 65 <= b <= 70 then Some(b - 55)
    else if 97 <= b <= 102 then Some(b - 87) else None
  }

  /** The number that the bytes of one character stand for. */
  function Utf8Value(bs: seq<Byte>): int {
    match |bs|
    case 1 => bs[0]
    case 2 => (bs[0] as int - 0xc0) * 0x40 + Continuation(bs[1])
    case 3 => ((bs[0] as int - 0xe0) * 0x40 + Continuation(bs[1])) * 0x40 + Continuation(bs[2])
    case 4 =>
      (((bs[0] as int - 0xf0) * 0x40 + Continuation(bs[1])) * 0x40 + Continuation(bs[2])) * 0x40 + Continuation(bs[3])
    case _ => -1
  }

  function Continuation(b: Byte): int {
    b as int - 0x80
  }

  /** The bytes of a character lead back to it; the first tells how many there are, and no fewer would do. */
  lemma Utf8TellsChar(c: char)
    ensures var n, bs := c as int, Utf8Char(c);
            && Utf8Value(bs) == n
            && |bs| == (if n < 0x80 then 1 else if n < 0x800 then 2 else if n < 0x10000 then 3 else 4)
            && (forall i | 1 <= i < |bs| :: 0x80 <= bs[i] < 0xc0)
            && (|bs| == 2 ==> 0xc0 <= bs[0] < 0xe0)
            && (|bs| == 3 ==> 0xe0 <= bs[0] < 0xf0)
            && (|bs| == 4 ==> 0xf0 <= bs[0] < 0xf8)
  {
    var n := c as int;
    assert n / 0x1000 == n / 0x40 / 0x40 && n / 0x40000 == n / 0x40 / 0x40 / 0x40;
  }

  const Percent: Byte := 37
  const Comma: Byte := 44

  /** A percent sign with two hexadecimal digits behind it stands for a byte, any other for itself. */
  function Unescape(bs: seq<Byte>): seq<Byte> {
    if bs == [] then []
    else if bs[0] == Percent && |bs| >= 3 && HexValue(bs[1]).Some? && HexValue(bs[2]).Some? then
      [HexValue(bs[1]).value * 16 + HexValue(bs[2]).value] + Unescape(bs[3..])
    else
      [bs[0]] + Unescape(bs[1..])
  }

  function Unquote(s: string): seq<Byte> {
    Unescape(Utf8(s))
  }

  lemma Utf8Cons(c: char, s: string)
    ensures Utf8("") == []
    ensures Utf8([c] + s) == Utf8Char(c) + Utf8(s)
  {
    assert ([c] + s)[1..] == s;
    hide Utf8Char;
  }

  lemma {:induction false} Utf8Concat(a: string, b: string)
    ensures Utf8(a + b) == Utf8(a) + Utf8(b)
  {
    hide *;
    if a == "" {
      Utf8Cons('a', "");
      assert a + b == b;
    } else {
      var c, rest := a[0], a[1..];
      Utf8Concat(rest, b);
      assert a == [c] + rest && a + b == [c] + (rest + b);
      Utf8Cons(c, rest);
      Utf8Cons(c, rest + b);
      var x, y, z := Utf8Char(c), Utf8(rest), Utf8(b);
      assert (x + y) + z == x + (y + z);
    }
  }

  predicate Escapes(bs: seq<Byte>) {
    |bs| >= 3 && bs[0] == Percent && HexValue(bs[1]).Some? && HexValue(bs[2]).Some?
  }

  lemma UnescapeStep(bs: seq<Byte>, k: nat, rest: seq<Byte>)
    requires bs != [] && k == (if Escapes(bs) then 3 else 1)
    requires k <= |bs| && bs[k..] == rest
    ensures Unescape(bs) == (if Escapes(bs) then [HexValue(bs[1]).value * 16 + HexValue(bs[2]).value] else [bs[0]])
                            + Unescape(rest)
  {
    hide HexValue;
  }

  /** A comma is never part of an escape. */
  lemma {:induction false} UnescapeAroundComma(a: seq<Byte>, b: seq<Byte>)
    ensures Unescape(a + [Comma] + b) == Unescape(a) + [Comma] + Unescape(b)
  {
    hide Unescape, HexValue;
    var all := a + [Comma] + b;
    if a == [] {
      UnescapeStep(all, 1, b);
      UnescapeNothing();
    } else {
      CommaEndsEscape(a, b);
      var k := if Escapes(a) then 3 else 1;
      assert all[k..] == a[k..] + [Comma] + b;
      UnescapeStep(a, k, a[k..]);
      UnescapeStep(all, k, all[k..]);
      UnescapeAroundComma(a[k..], b);
    }
  }

  lemma UnescapeNothing()
    ensures Unescape([]) == []
  {}

  lemma CommaEndsEscape(a: seq<Byte>, b: seq<Byte>)
    requires a != []
    ensures Escapes(a + [Comma] + b) == Escapes(a)
    ensures Escapes(a) ==> (a + [Comma] + b)[..3] == a[..3]
  {
    var all := a + [Comma] + b;
    assert forall i | 0 <= i < |a| :: all[i] == a[i];
    assert all[|a|] == Comma && HexValue(Comma).None?;
    hide HexValue;
  }

  function HexDigit(d: Nibble, capital: bool): Byte {
    if d < 10 then 48 + d else if capital then 55 + d else 87 + d
  }

  /** Every byte can be escaped, with digits of either kind, and comes back. */
  lemma EscapedByteReturns(b: Byte, high: bool, low: bool, rest: seq<Byte>)
    ensures HexDigit(10, true) == 'A' as int && HexDigit(10, false) == 'a' as int && HexDigit(0, high) == '0' as int
    ensures Unescape([Percent, HexDigit(b / 16, high), HexDigit(b % 16, low)] + rest) == [b] + Unescape(rest)
  {
    var bs := [Percent, HexDigit(b / 16, high), HexDigit(b % 16, low)] + rest;
    assert bs[3..] == rest;
    assert HexValue(bs[1]) == Some(b / 16) && HexValue(bs[2]) == Some(b % 16);
    UnescapeStep(bs, 3, rest);
  }

  /** Nothing else is a digit. */
  lemma HexDigitsOnly(x: Byte)
    ensures HexValue(x).Some? ==> exists capital :: x == HexDigit(HexValue(x).value, capital)
  {
    if HexValue(x).Some? {
      var d := HexValue(x).value;
      assert x == HexDigit(d, true) || x == HexDigit(d, false);
    }
  }

  lemma {:induction false} UnescapePlain(bs: seq<Byte>)
    requires Percent !in bs
    ensures Unescape(bs) == bs
  {
    if bs != [] {
      UnescapePlain(bs[1..]);
    }
  }

  lemma {:induction false} Utf8Ascii(s: string)
    requires Ascii(s) && '%' !in s
    ensures |Utf8(s)| == |s| && Percent !in Utf8(s)
  {
    if s != "" {
      assert s[0] in s && forall c | c in s[1..] :: c in s;
      Utf8Ascii(s[1..]);
    }
  }

  lemma {:induction false} EncodeIsPlain(p: seq<Byte>)
    ensures |Encode(p)| >= |p| && '%' !in Encode(p) && Ascii(Encode(p))
    decreases |p|
  {
    if |p| >= 3 {
      EncodeIsPlain(p[3..]);
    }
  }

  lemma Utf8Comma()
    ensures Utf8(",") == [Comma]
  {
    assert Utf8(",") == Utf8Char(',') + Utf8("");
  }

  /** Percent-decoding never gives a payload back whose encoding stands behind a comma: it is too long. */
  lemma UnquoteTooLong(front: string, payload: seq<Byte>)
    ensures |Unquote(front + "," + Encode(payload))| > |payload|
  {
    var encoded := Encode(payload);
    EncodeIsPlain(payload);
    Utf8Comma();
    hide Encode, Unescape, Utf8, Ascii;
    Utf8Concat(front + ",", encoded);
    Utf8Concat(front, ",");
    UnescapeAroundComma(Utf8(front), Utf8(encoded));
    Utf8Ascii(encoded);
    UnescapePlain(Utf8(encoded));
  }

  // ---------------------------------------------------------------- parse and build

  /** The segments of the header without blanks around them, blank ones dropped. */
  function Tidy(segments: seq<string>): seq<string> {
    if segments == [] then []
    else
      var last := Strip(segments[|segments| - 1]);
      Tidy(segments[..|segments| - 1]) + if last == "" then [] else [last]
  }

  function Mime(parts: seq<string>): string {
    if parts != [] && '/' in parts[0] then Lower(parts[0]) else "text/plain"
  }

  function Params(parts: seq<string>): seq<string> {
    if parts != [] && '/' in parts[0] then parts[1..] else parts
  }

  predicate SaysBase64(p: string) {
    Lower(Strip(p)) == "base64"
  }

  function Parse(value: string): Option<Url> {
    if |value| < 5 || value[..5] != "data:" then None
    else
      var rest := value[5..];
      var i := FirstComma(rest);
      if i == |rest| then None
      else
        var parts := Tidy(Split(rest[..i]));
        var params := Params(parts);
        var isBase64 := exists p | p in params :: SaysBase64(p);
        var payload := if isBase64 then Decode(rest[i + 1..]) else Some(Unquote(rest[i + 1..]));
        if payload.None? then None else Some(Url(Mime(parts), params, payload.value, isBase64))
  }

  /** The parameters other than `base64`. */
  function Extras(params: seq<string>): seq<string> {
    if params == [] then []
    else
      var last := params[|params| - 1];
      Extras(params[..|params| - 1]) + if SaysBase64(last) then [] else [last]
  }

  function Header(mime: string, params: seq<string>): string {
    Lower(mime) + ";" + Join(Extras(params) + ["base64"])
  }

  function Build(mime: string, payload: seq<Byte>, params: seq<string>): string {
    "data:" + Header(mime, params) + "," + Encode(payload)
  }

  /** Without a media type the data is plain text, percent-encoded. */
  lemma NoTypeIsPlainText(data: string)
    ensures Parse("data:," + data) == Some(Url("text/plain", [], Unquote(data), false))
  {
    var value := "data:," + data;
    assert value == "data:" + ("" + "," + data);
    assert Split("") == [""] && Strip("") == "";
    assert [""][..0] == [];
    assert Tidy([""]) == [];
    ParseAt(value, "", data);
  }

  // ---------------------------------------------------------------- building and parsing again

  lemma ParseBuilt(mime: string, payload: seq<Byte>, params: seq<string>)
    requires ',' !in Header(mime, params)
    ensures var parts := Tidy(Split(Header(mime, params)));
            (exists p | p in Params(parts) :: SaysBase64(p)) ==>
              Parse(Build(mime, payload, params)) == Some(Url(Mime(parts), Params(parts), payload, true))
  {
    var header, encoded := Header(mime, params), Encode(payload);
    assert Build(mime, payload, params) == "data:" + (header + "," + encoded);
    DecodeEncode(payload);
    hide Build, Header, Encode, Decode, Tidy, Split, SaysBase64, Mime, Params, Parse;
    ParseAt(Build(mime, payload, params), header, encoded);
  }

  lemma {:induction false} TidyAppend(a: seq<string>, b: seq<string>)
    ensures Tidy(a + b) == Tidy(a) + Tidy(b)
    decreases |b|
  {
    if b == [] {
      assert a + b == a;
    } else {
      TidyAppend(a, b[..|b| - 1]);
      assert (a + b)[..|a + b| - 1] == a + b[..|b| - 1];
    }
  }

  lemma Base64Says()
    ensures Strip("base64") == "base64" && SaysBase64("base64") && '/' !in "base64" && Tidy(["base64"]) == ["base64"]
  {
    StripSpec("base64");
    assert Tidy([]) == [];
    assert ["base64"][..0] == [];
  }

  lemma {:induction false} JoinNoComma(xs: seq<string>)
    requires xs != [] && forall x | x in xs :: ',' !in x
    ensures ',' !in Join(xs)
    decreases |xs|
  {
    if |xs| > 1 { JoinNoComma(xs[..|xs| - 1]); }
  }

  lemma {:induction false} ExtrasMember(params: seq<string>, x: string)
    ensures x in Extras(params) ==> x in params && !SaysBase64(x)
    decreases |params|
  {
    if params != [] {
      hide SaysBase64, Extras;
      var front, last := params[..|params| - 1], params[|params| - 1];
      assert params == front + [last];
      ExtrasMember(front, x);
    }
  }

  /** These are the parameters that do not say base64, all of them and in their order, with their positions. */
  predicate Keeps(params: seq<string>, at: seq<nat>, kept: seq<string>) {
    && |at| == |kept| && (forall i, k | 0 <= i < k < |at| :: at[i] < at[k])
    && (forall i | 0 <= i < |at| :: at[i] < |params| && kept[i] == params[at[i]])
    && (forall k: nat | k < |params| :: k in at <==> !SaysBase64(params[k]))
  }

  lemma KeepsNext(params: seq<string>, at: seq<nat>, kept: seq<string>)
    requires params != [] && Keeps(params[..|params| - 1], at, kept)
    ensures var n := |params| - 1;
            if SaysBase64(params[n]) then Keeps(params, at, kept) else Keeps(params, at + [n], kept + [params[n]])
  {
    hide SaysBase64;
    var n := |params| - 1;
    assert forall k: nat | k < n :: params[k] == params[..n][k];
    assert n !in at && forall i | 0 <= i < |at| :: at[i] < n;
    assert forall k: nat :: k in at + [n] <==> k in at || k == n;
  }

  /** Exactly the parameters that do not say base64 are kept, in their order. */
  lemma {:induction false} ExtrasKeepOrder(params: seq<string>) returns (at: seq<nat>)
    ensures Keeps(params, at, Extras(params))
    decreases |params|
  {
    at := [];
    if params != [] {
      hide SaysBase64, Keeps;
      var n := |params| - 1;
      at := ExtrasKeepOrder(params[..n]);
      KeepsNext(params, at, Extras(params[..n]));
      assert Extras(params[..n]) + [] == Extras(params[..n]);
      if !SaysBase64(params[n]) { at := at + [n]; }
    }
  }

  lemma {:induction false} ExtrasWhole(params: seq<string>)
    requires forall x | x in params :: !SaysBase64(x)
    ensures Extras(params) == params
    decreases |params|
  {
    if params != [] {
      hide SaysBase64, Extras;
      var front, last := params[..|params| - 1], params[|params| - 1];
      assert params == front + [last] && last in params;
      ExtrasWhole(front);
    }
  }

  lemma ExtrasAreParams(params: seq<string>)
    ensures forall x | x in Extras(params) :: x in params && !SaysBase64(x)
  {
    hide SaysBase64, Extras;
    forall x | x in Extras(params) ensures x in params && !SaysBase64(x) { ExtrasMember(params, x); }
  }

  lemma HeaderNoComma(mime: string, params: seq<string>)
    requires ',' !in mime && forall p | p in params :: ',' !in p
    ensures ',' !in Header(mime, params)
  {
    LowerSpec(mime);
    ExtrasAreParams(params);
    JoinNoComma(Extras(params) + ["base64"]);
  }

  lemma JoinSnoc(xs: seq<string>, x: string)
    ensures Join(xs + [x]) == if xs == [] then x else Join(xs) + ";" + x
  {
    assert (xs + [x])[..|xs|] == xs;
  }

  /** The header ends with the parameter `base64`. */
  lemma HeaderEnds(mime: string, params: seq<string>) returns (before: string)
    ensures Header(mime, params) == before + ";" + "base64"
  {
    hide Join, Lower, Extras;
    var extras := Extras(params);
    before := if extras == [] then Lower(mime) else Lower(mime) + ";" + Join(extras);
    JoinSnoc(extras, "base64");
  }

  lemma PartsEnd(before: string)
    ensures Tidy(Split(before + ";" + "base64")) == Tidy(Split(before)) + ["base64"]
  {
    Base64Says();
    hide Tidy, Split;
    SplitAppend(before, "base64");
    TidyAppend(Split(before), ["base64"]);
  }

  lemma LastParam(parts: seq<string>)
    ensures exists p :: p in Params(parts + ["base64"]) && SaysBase64(p)
  {
    Base64Says();
    hide SaysBase64;
    var all := parts + ["base64"];
    if '/' in all[0] {
      assert parts != [];
      assert all[1..] == parts[1..] + ["base64"];
    }
    assert "base64" in Params(all);
  }

  /** The payload survives, whatever the media type and the parameters are, as long as they hold no comma. */
  lemma BuildKeepsPayload(mime: string, payload: seq<Byte>, params: seq<string>)
    requires ',' !in mime && forall p | p in params :: ',' !in p
    ensures var u := Parse(Build(mime, payload, params));
            u.Some? && u.value.payload == payload && u.value.isBase64
  {
    HeaderNoComma(mime, params);
    hide *;
    var before := HeaderEnds(mime, params);
    PartsEnd(before);
    LastParam(Tidy(Split(before)));
    ParseBuilt(mime, payload, params);
  }

  predicate SomeBase64(params: seq<string>) {
    exists p | p in params :: SaysBase64(p)
  }

  /** What is read before the first comma of the header, and what is taken for data with the encoding. */
  function Announced(header: string): seq<string> {
    Tidy(Split(header[..FirstComma(header)]))
  }

  function Leftover(header: string): string
    requires ',' in header
  {
    header[FirstComma(header) + 1..] + ","
  }

  lemma ParseWithComma(mime: string, payload: seq<Byte>, params: seq<string>)
    requires ',' in Header(mime, params)
    ensures var h := Header(mime, params);
            var says := SomeBase64(Params(Announced(h)));
            var data := Leftover(h) + Encode(payload);
            var bytes := if says then Decode(data) else Some(Unquote(data));
            Parse(Build(mime, payload, params)) ==
            if bytes.None? then None
            else Some(Url(Mime(Announced(h)), Params(Announced(h)), bytes.value, says))
  {
    hide *;
    var h := Header(mime, params);
    var front := BuiltAtComma(mime, payload, params);
    ParseAt(Build(mime, payload, params), front, Leftover(h) + Encode(payload));
  }

  lemma BuiltAtComma(mime: string, payload: seq<Byte>, params: seq<string>) returns (front: string)
    requires ',' in Header(mime, params)
    ensures var h := Header(mime, params);
            && Build(mime, payload, params) == "data:" + (front + "," + (Leftover(h) + Encode(payload)))
            && ',' !in front && Announced(h) == Tidy(Split(front))
  {
    hide Header, Encode, Tidy, Split;
    var h := Header(mime, params);
    front := h[..FirstComma(h)];
    assert h == front + "," + h[FirstComma(h) + 1..];
    hide FirstComma;
  }

  /** How a data URL is read whose header is known. */
  lemma ParseAt(value: string, header: string, data: string)
    requires value == "data:" + (header + "," + data) && ',' !in header
    ensures var parts := Tidy(Split(header));
            var says := SomeBase64(Params(parts));
            var bytes := if says then Decode(data) else Some(Unquote(data));
            Parse(value) == if bytes.None? then None else Some(Url(Mime(parts), Params(parts), bytes.value, says))
  {
    hide Tidy, Split, SaysBase64, Mime, Params, Decode;
    assert value[..5] == "data:" && value[5..] == header + "," + data;
    CommaAt(header, data);
    assert value[5..][..|header|] == header && value[5..][|header| + 1..] == data;
    hide FirstComma;
  }

  /** The header ends with `base64`, so at least that word is left over. */
  lemma LeftoverHasWord(mime: string, params: seq<string>)
    requires ',' in Header(mime, params)
    ensures DataChars(Leftover(Header(mime, params))) >= 6
  {
    WordCounts();
    hide Header, DataChars, Feed;
    var h := Header(mime, params);
    var before := HeaderEnds(mime, params);
    var i := FirstComma(h);
    assert i < |before| by {
      assert forall k | |before| <= k < |h| :: h[k] == (";" + "base64")[k - |before|];
    }
    hide FirstComma;
    var front := before[i + 1..] + ";";
    assert h[i + 1..] == front + "base64" by { SuffixOf(before, ";", "base64", i + 1); }
    DataCharsConcat(front + "base64", ",");
    DataCharsConcat(front, "base64");
  }

  lemma WordCounts()
    ensures DataChars("base64") == 6
  {}

  lemma SuffixOf(a: string, b: string, c: string, k: nat)
    requires k <= |a|
    ensures (a + b + c)[k..] == a[k..] + b + c
  {}

  /** For every media type and all parameters: what was built is read, and as base64 if and only if a parameter before
      the first comma of the header says so or there is no comma; and the payload comes back if and only if there is
      no comma, or what stands behind it is read as base64 and already ends the data, with just that payload. */
  lemma BuildKeepsPayloadIff(mime: string, payload: seq<Byte>, params: seq<string>)
    ensures var u := Parse(Build(mime, payload, params));
            var h := Header(mime, params);
            var says := SomeBase64(Params(Announced(h)));
            && (u.Some? ==> (u.value.isBase64 <==> says))
            && (u.Some? && u.value.payload == payload <==>
                  || ',' !in h
                  || (says && Ascii(Leftover(h)) && Feed(Leftover(h), Zero, 0) == Stopped(payload)))
  {
    var h := Header(mime, params);
    hide *;
    if ',' in h {
      ParseWithComma(mime, payload, params);
      LeftoverHasWord(mime, params);
      PrefixedDecode(Leftover(h), payload);
      LeftoverTooLong(h, payload);
    } else {
      WholeHeader(mime, payload, params);
    }
  }

  lemma LeftoverTooLong(header: string, payload: seq<Byte>)
    requires ',' in header
    ensures Unquote(Leftover(header) + Encode(payload)) != payload
  {
    UnquoteTooLong(header[FirstComma(header) + 1..], payload);
  }

  lemma WholeHeader(mime: string, payload: seq<Byte>, params: seq<string>)
    requires ',' !in Header(mime, params)
    ensures var u := Parse(Build(mime, payload, params));
            u.Some? && u.value.payload == payload && u.value.isBase64
                && SomeBase64(Params(Announced(Header(mime, params))))
  {
    var h := Header(mime, params);
    assert h[..FirstComma(h)] == h;
    hide Header, Tidy, Split, SaysBase64, FirstComma, Parse, Build;
    var before := HeaderEnds(mime, params);
    PartsEnd(before);
    LastParam(Tidy(Split(before)));
    ParseBuilt(mime, payload, params);
  }

  // ---------------------------------------------------------------- what was parsed can be built and parsed again

  /** A part of a header: not blank, no blanks around it, no separator inside. */
  predicate IsPart(p: string) {
    p != "" && Stripped(p) && ';' !in p && ',' !in p
  }

  lemma {:induction false} SplitParts(s: string)
    ensures forall x | x in Split(s) :: ';' !in x && forall c | c in x :: c in s
    decreases |s|
  {
    var i := LastSemicolon(s);
    if i >= 0 { SplitParts(s[..i]); }
  }

  lemma {:induction false} TidyParts(segments: seq<string>)
    requires forall x | x in segments :: ';' !in x && ',' !in x
    ensures forall x | x in Tidy(segments) :: IsPart(x)
    decreases |segments|
  {
    if segments != [] {
      TidyParts(segments[..|segments| - 1]);
      StripSpec(segments[|segments| - 1]);
    }
  }

  lemma {:induction false} TidyFixesParts(xs: seq<string>)
    requires forall x | x in xs :: IsPart(x)
    ensures Tidy(xs) == xs
    decreases |xs|
  {
    if xs != [] {
      var front, last := xs[..|xs| - 1], xs[|xs| - 1];
      assert last in xs && xs == front + [last];
      TidyFixesParts(front);
      StripSpec(last);
      assert Strip(last) == last;
    }
  }

  lemma PartLower(p: string)
    requires IsPart(p)
    ensures IsPart(Lower(p)) && Lower(Lower(p)) == Lower(p)
    ensures '/' in p ==> '/' in Lower(p)
  {
    LowerSpec(p);
    hide Lower, Stripped;
  }

  lemma MimeIsPart(parts: seq<string>)
    requires forall p | p in parts :: IsPart(p)
    ensures var m := Mime(parts); IsPart(m) && '/' in m && Lower(m) == m
  {
    if parts != [] && '/' in parts[0] {
      PartLower(parts[0]);
    } else {
      var m := "text/plain";
      assert m[4] == '/' && Lower(m) == m;
    }
  }

  lemma ParsedParts(value: string)
    requires Parse(value).Some?
    ensures var u := Parse(value).value;
            && IsPart(u.mime) && '/' in u.mime && Lower(u.mime) == u.mime
            && forall p | p in u.params :: IsPart(p)
  {
    var rest := value[5..];
    var meta := rest[..FirstComma(rest)];
    SplitParts(meta);
    TidyParts(Split(meta));
    MimeIsPart(Tidy(Split(meta)));
    hide IsPart, Tidy, Split, Mime, Lower, SaysBase64, FirstComma;
  }

  lemma PartFacts(p: string)
    requires IsPart(p)
    ensures ';' !in p && ',' !in p && Split(p) == [p]
  {}

  lemma ExtrasAreParts(params: seq<string>)
    requires forall p | p in params :: IsPart(p)
    ensures forall p | p in Extras(params) + ["base64"] :: IsPart(p)
  {
    assert IsPart("base64");
    hide IsPart, Extras, SaysBase64;
    forall p | p in Extras(params) ensures IsPart(p) { ExtrasMember(params, p); }
  }

  lemma HeaderParts(mime: string, params: seq<string>)
    requires IsPart(mime) && Lower(mime) == mime && forall p | p in params :: IsPart(p)
    ensures Tidy(Split(Header(mime, params))) == [mime] + (Extras(params) + ["base64"])
  {
    hide *;
    ExtrasAreParts(params);
    PartsSplit(mime, Extras(params) + ["base64"]);
    HeaderIs(mime, params);
  }

  lemma PartsSplit(mime: string, extras: seq<string>)
    requires IsPart(mime) && extras != [] && forall p | p in extras :: IsPart(p)
    ensures Tidy(Split(mime + ";" + Join(extras))) == [mime] + extras
  {
    hide Tidy, Split, Join;
    PartFacts(mime);
    forall p | p in extras ensures ';' !in p { PartFacts(p); }
    SplitJoin(mime, extras);
    hide IsPart;
    TidyFixesParts([mime] + extras);
  }

  lemma HeaderIs(mime: string, params: seq<string>)
    ensures Header(mime, params) == Lower(mime) + ";" + Join(Extras(params) + ["base64"])
  {}

  /** For instance, a comma behind an ordinary media type ends the header early: what was built is not read as base64
      any more, and the payload is lost. */
  lemma CommaLosesBase64(a: string, b: string, payload: seq<Byte>, params: seq<string>)
    requires IsPart(a) && '/' in a
    ensures var u := Parse(Build(a + "," + b, payload, params));
            u.Some? && !u.value.isBase64 && u.value.payload != payload
  {
    PartLower(a);
    LowerAroundComma(a, b);
    HeaderIs(a + "," + b, params);
    hide *;
    var h := Header(a + "," + b, params);
    var rest := Lower(b) + ";" + Join(Extras(params) + ["base64"]);
    assert h == Lower(a) + "," + rest;
    AnnouncesOne(Lower(a), rest);
    assert h[|Lower(a)|] == ',';
    ParseWithComma(a + "," + b, payload, params);
    LeftoverTooLong(h, payload);
  }

  predicate SpellsBase64(p: string) {
    |p| == 6 && forall i | 0 <= i < 6 :: p[i] == "base64"[i] || p[i] == "BASE64"[i]
  }

  /** The word counts in letters of either case, with blanks around it or not. */
  lemma SaysIff(p: string)
    ensures SaysBase64(p) <==> SpellsBase64(Strip(p))
  {
    hide Strip;
    var word := Strip(p);
    assert forall i | 0 <= i < |word| :: Lower(word)[i] == LowerChar(word[i]);
    if SpellsBase64(word) { assert Lower(word) == "base64"; }
    if SaysBase64(p) { assert forall i | 0 <= i < 6 :: Lower(word)[i] == "base64"[i]; }
  }

  lemma PartStripped(p: string)
    requires IsPart(p)
    ensures Strip(p) == p
  {
    StripSpec(p);
  }

  /** What is read from the parts of a header: a first part with a slash is the media type, in lower case, and all
      others are parameters, in their order; the data is base64 exactly if one of them is that word in letters of
      either case, and only base64 can be refused. */
  lemma ReadsParts(first: string, rest: seq<string>, data: string)
    requires IsPart(first) && forall p | p in rest :: IsPart(p)
    ensures var header := if rest == [] then first else first + ";" + Join(rest);
            var u := Parse("data:" + (header + "," + data));
            var params := if '/' in first then rest else [first] + rest;
            var says := exists p :: p in params && SpellsBase64(p);
            && (u.None? <==> says && Decode(data).None?)
            && (u.Some? ==>
                  && u.value.mime == (if '/' in first then Lower(first) else "text/plain")
                  && u.value.params == params && u.value.isBase64 == says
                  && (if says then Decode(data) == Some(u.value.payload) else u.value.payload == Unquote(data)))
  {
    var header := if rest == [] then first else first + ";" + Join(rest);
    var params := if '/' in first then rest else [first] + rest;
    assert Params([first] + rest) == params && ([first] + rest)[0] == first;
    hide *;
    forall p | p in [first] + rest ensures ',' !in p && (SaysBase64(p) <==> SpellsBase64(p)) {
      PartFacts(p);
      PartStripped(p);
      SaysIff(p);
    }
    PartsHeader(first, rest);
    ParseAt("data:" + (header + "," + data), header, data);
    TypeIs(first, rest);
    SomeSpells(params);
  }

  lemma SomeSpells(params: seq<string>)
    requires forall p | p in params :: SaysBase64(p) <==> SpellsBase64(p)
    ensures SomeBase64(params) <==> exists p :: p in params && SpellsBase64(p)
  {}

  lemma TypeIs(first: string, rest: seq<string>)
    ensures Mime([first] + rest) == if '/' in first then Lower(first) else "text/plain"
  {}

  lemma PartsHeader(first: string, rest: seq<string>)
    requires IsPart(first) && forall p | p in rest :: IsPart(p)
    ensures var header := if rest == [] then first else first + ";" + Join(rest);
            Tidy(Split(header)) == [first] + rest && ',' !in header
  {
    hide Tidy, Split, Join;
    PartFacts(first);
    if rest == [] {
      TidyFixesParts([first]);
    } else {
      PartsSplit(first, rest);
      JoinNoComma(rest);
    }
  }

  lemma LowerAroundComma(a: string, b: string)
    ensures Lower(a + "," + b) == Lower(a) + "," + Lower(b)
  {}

  lemma AnnouncesOne(part: string, rest: string)
    requires IsPart(part) && '/' in part
    ensures !SomeBase64(Params(Announced(part + "," + rest)))
  {
    hide IsPart, Tidy, Split, FirstComma;
    PartFacts(part);
    CommaAt(part, rest);
    assert (part + "," + rest)[..|part|] == part;
    TidyFixesParts([part]);
    assert Params([part]) == [];
  }

  /** Everything the parser accepts can be built and parsed again: the media type and the payload come back, the
      parameters come back with `base64` moved to the end. */
  lemma Reparse(value: string)
    requires Parse(value).Some?
    ensures var u := Parse(value).value;
            Parse(Build(u.mime, u.payload, u.params))
            == Some(Url(u.mime, Extras(u.params) + ["base64"], u.payload, true))
  {
    var u := Parse(value).value;
    ParsedParts(value);
    Base64Says();
    hide *;
    var params := Extras(u.params) + ["base64"];
    HeaderParts(u.mime, u.params);
    forall p | p in u.params ensures ',' !in p { PartFacts(p); }
    PartFacts(u.mime);
    HeaderNoComma(u.mime, u.params);
    assert params[|params| - 1] == "base64";
    ParseBuilt(u.mime, u.payload, u.params);
  }

  /** A media type in its usual form is read back as it was. */
  lemma BuildKeepsType(mime: string, payload: seq<Byte>)
    requires IsPart(mime) && '/' in mime && Lower(mime) == mime
    ensures var u := Parse(Build(mime, payload, [])); u.Some? && u.value.mime == mime
  {
    Base64Says();
    hide *;
    PartFacts(mime);
    HeaderNoComma(mime, []);
    HeaderParts(mime, []);
    BuildKeepsPayload(mime, payload, []);
    TypeOfParts(mime, Extras([]) + ["base64"]);
    LastParam([mime] + Extras([]));
    assert [mime] + Extras([]) + ["base64"] == [mime] + (Extras([]) + ["base64"]);
    ParseBuilt(mime, payload, []);
  }

  lemma TypeOfParts(mime: string, rest: seq<string>)
    requires '/' in mime && Lower(mime) == mime
    ensures Mime([mime] + rest) == mime
  {}

  /** Building is a normal form: building what was built and parsed gives the same string. */
  lemma RebuildIsStable(value: string)
    requires Parse(value).Some?
    ensures var u := Parse(value).value;
            var built := Build(u.mime, u.payload, u.params);
            var again := Parse(built);
            again.Some? && Build(again.value.mime, again.value.payload, again.value.params) == built
  {
    var u := Parse(value).value;
    Reparse(value);
    Base64Says();
    var extras := Extras(u.params);
    ExtrasAreParams(u.params);
    ExtrasWhole(extras);
    assert (extras + ["base64"])[..|extras|] == extras;
    assert Extras(extras + ["base64"]) == extras;
  }
}
