/** Base64 (RFC 4648, section 4): the encoder, and the decoder that skips what it does not know. */
module Base64 {
  import opened Options

  type Byte = n: nat | n < 256
  type Sextet = n: nat | n < 64
  type Nibble = n: nat | n < 16
  type Pair = n: nat | n < 4

  function Char(n: Sextet): (c: char)
    ensures Value(c) == Some(n) && c != '=' && (c as int) < 128
  {
    if n < 26 then (n + 65) as char
    else if n < 52 then (n + 71) as char
    else if n < 62 then (n - 4) as char
    else if n == 62 then '+' else '/'
  }

  function Value(c: char): Option<Sextet> {
    if 'A' <= c <= 'Z' then Some(c as int - 65)
    else if 'a' <= c <= 'z' then Some(c as int - 71)
    else if '0' <= c <= '9' then Some(c as int + 4)
    else if c == '+' then Some(62) else if c == '/' then Some(63) else None
  }

  function Encode(p: seq<Byte>): string {
    if p == [] then ""
    else if |p| == 1 then [Char(p[0] / 4), Char(p[0] % 4 * 16), '=', '=']
    else if |p| == 2 then [Char(p[0] / 4), Char(p[0] % 4 * 16 + p[1] / 16), Char(p[1] % 16 * 4), '=']
    else
      [Char(p[0] / 4), Char(p[0] % 4 * 16 + p[1] / 16), Char(p[1] % 16 * 4 + p[2] / 64), Char(p[2] % 64)]
      + Encode(p[3..])
  }

  const CAPITALS := "ABCDEFGHIJKLMNOPQRSTUVWXYZ"
  const SMALL := "abcdefghijklmnopqrstuvwxyz"
  const ALPHABET := CAPITALS + SMALL + "0123456789" + "+/"

  /** The characters are those of the standard alphabet, in its order. */
  lemma CharsAreAlphabet(n: Sextet)
    ensures |ALPHABET| == 64 && Char(n) == ALPHABET[n]
  {
    assert |CAPITALS| == 26 && |SMALL| == 26;
    if n < 26 {
      CapitalAt(n);
    } else if n < 52 {
      SmallAt(n - 26);
    } else if n < 62 {
      assert "0123456789"[n - 52] == (n - 4) as char;
    }
    hide CAPITALS, SMALL;
  }

  lemma CapitalAt(k: nat)
    requires k < 26
    ensures CAPITALS[k] == (k + 65) as char
  {}

  lemma SmallAt(k: nat)
    requires k < 26
    ensures SMALL[k] == (k + 97) as char
  {}

  /** The test vectors of RFC 4648, section 10. */
  lemma TestVectors()
    ensures Encode([]) == "" && Encode([102]) == "Zg==" && Encode([102, 111]) == "Zm8="
    ensures Encode([102, 111, 111]) == "Zm9v" && Encode([102, 111, 111, 98]) == "Zm9vYg=="
    ensures Encode([102, 111, 111, 98, 97]) == "Zm9vYmE=" && Encode([102, 111, 111, 98, 97, 114]) == "Zm9vYmFy"
  {
    ShortVectors();
    hide Char, Value;
    assert [102 as Byte, 111, 111, 98][3..] == [98] && [102 as Byte, 111, 111, 98, 97][3..] == [98, 97];
    assert [102 as Byte, 111, 111, 98, 97, 114][3..] == [98, 97, 114];
  }

  lemma ShortVectors()
    ensures Encode([]) == "" && Encode([102]) == "Zg==" && Encode([102, 111]) == "Zm8="
    ensures Encode([102, 111, 111]) == "Zm9v" && Encode([98]) == "Yg==" && Encode([98, 97]) == "YmE="
    ensures Encode([98, 97, 114]) == "YmFy"
    ensures [Char(102 / 4), Char(102 % 4 * 16 + 111 / 16), Char(111 % 16 * 4 + 111 / 64), Char(111 % 64)] == "Zm9v"
  {}

  /** How much of a group of four characters has been read, and the bits left over. */
  datatype Quad = Zero | One(six: Sextet) | Two(four: Nibble) | Three(two: Pair)

  function Position(q: Quad): nat {
    match q
    case Zero => 0
    case One(_) => 1
    case Two(_) => 2
    case Three(_) => 3
  }

  function Next(q: Quad, v: Sextet): Quad {
    match q
    case Zero => One(v)
    case One(_) => Two(v % 16)
    case Two(_) => Three(v % 4)
    case Three(_) => Zero
  }

  function Output(q: Quad, v: Sextet): seq<Byte> {
    match q
    case Zero => []
    case One(left) => [left * 4 + v / 16]
    case Two(left) => [left * 16 + v / 4]
    case Three(left) => [left * 64 + v]
  }

  /** The lenient decoder: unknown characters are skipped, and enough padding ends the data. */
  function Scan(s: string, q: Quad, pads: nat): Option<seq<Byte>> {
    if s == "" then if q.Zero? then Some([]) else None
    else if s[0] == '=' then
      var pads' := if Position(q) >= 2 then pads + 1 else pads;
      if Position(q) >= 2 && Position(q) + pads' >= 4 then Some([]) else Scan(s[1..], q, pads')
    else
      match Value(s[0])
      case None => Scan(s[1..], q, pads)
      case Some(v) =>
        match Scan(s[1..], Next(q, v), 0)
        case None => None
        case Some(rest) => Some(Output(q, v) + rest)
  }

  predicate Ascii(s: string) {
    forall c | c in s :: (c as int) < 128
  }

  function Decode(s: string): Option<seq<Byte>> {
    if Ascii(s) then Scan(s, Zero, 0) else None
  }

  lemma ScanChar(v: Sextet, rest: string, q: Quad, pads: nat)
    ensures Scan([Char(v)] + rest, q, pads) ==
            if Scan(rest, Next(q, v), 0).None? then None else Some(Output(q, v) + Scan(rest, Next(q, v), 0).value)
  {
    assert ([Char(v)] + rest)[1..] == rest;
  }

  lemma ScanPads(q: Quad)
    ensures q.Two? ==> Scan("==", q, 0) == Some([])
    ensures q.Three? ==> Scan("=", q, 0) == Some([])
  {
    assert "=="[1..] == "=";
  }

  /** The bits of three bytes, cut into sixes and put together again. */
  lemma Bits(x: Byte, y: Byte, z: Byte)
    ensures var a, b, c, d := x / 4, x % 4 * 16 + y / 16, y % 16 * 4 + z / 64, z % 64;
            a * 4 + b / 16 == x && b % 16 * 16 + c / 4 == y && c % 4 * 64 + d == z
  {}

  /** Two characters give a byte, a third gives another, a fourth a third. */
  lemma ScanTwo(a: Sextet, b: Sextet, rest: string)
    ensures Scan([Char(a), Char(b)] + rest, Zero, 0) ==
            var r := Scan(rest, Two(b % 16), 0);
            if r.None? then None else Some([a * 4 + b / 16] + r.value)
  {
    var more := [Char(b)] + rest;
    ScanChar(b, rest, One(a), 0);
    ScanChar(a, more, Zero, 0);
    assert [Char(a), Char(b)] + rest == [Char(a)] + more;
    hide Scan, Char, Value;
    var r := Scan(rest, Two(b % 16), 0);
    if r.Some? { assert [] + ([a * 4 + b / 16] + r.value) == [a * 4 + b / 16] + r.value; }
  }

  lemma ScanLastOne(x: Byte)
    ensures Scan([Char(x / 4), Char(x % 4 * 16), '=', '='], Zero, 0) == Some([x])
  {
    hide Char, Value, Scan;
    var a, b := x / 4, x % 4 * 16;
    Bits(x, 0, 0);
    ScanPads(Two(b % 16));
    ScanTwo(a, b, "==");
    assert [Char(a), Char(b), '=', '='] == [Char(a), Char(b)] + "==";
    assert [x] + [] == [x];
  }

  lemma ScanLastTwo(x: Byte, y: Byte)
    ensures Scan([Char(x / 4), Char(x % 4 * 16 + y / 16), Char(y % 16 * 4), '='], Zero, 0) == Some([x, y])
  {
    hide Char, Value, Scan;
    var a, b, c := x / 4, x % 4 * 16 + y / 16, y % 16 * 4;
    Bits(x, y, 0);
    ScanPads(Three(c % 4));
    ScanChar(c, "=", Two(b % 16), 0);
    ScanTwo(a, b, [Char(c)] + "=");
    assert [Char(a), Char(b), Char(c), '='] == [Char(a), Char(b)] + ([Char(c)] + "=");
    assert [x] + ([y] + []) == [x, y];
  }

  lemma ScanThree(x: Byte, y: Byte, z: Byte, tail: string, rest: seq<Byte>)
    requires Scan(tail, Zero, 0) == Some(rest)
    ensures Scan([Char(x / 4), Char(x % 4 * 16 + y / 16), Char(y % 16 * 4 + z / 64), Char(z % 64)] + tail, Zero, 0)
            == Some([x, y, z] + rest)
  {
    hide Char, Value, Scan;
    var a, b, c, d := x / 4, x % 4 * 16 + y / 16, y % 16 * 4 + z / 64, z % 64;
    Bits(x, y, z);
    ScanChar(d, tail, Three(c % 4), 0);
    ScanChar(c, [Char(d)] + tail, Two(b % 16), 0);
    ScanTwo(a, b, [Char(c)] + ([Char(d)] + tail));
    assert [Char(a), Char(b), Char(c), Char(d)] + tail == [Char(a), Char(b)] + ([Char(c)] + ([Char(d)] + tail));
    assert [x] + ([y] + ([z] + rest)) == [x, y, z] + rest;
  }

  lemma {:induction false} ScanEncode(p: seq<Byte>)
    ensures Scan(Encode(p), Zero, 0) == Some(p)
    decreases |p|
  {
    if |p| >= 3 {
      ScanEncode(p[3..]);
      ScanThree(p[0], p[1], p[2], Encode(p[3..]), p[3..]);
      assert p == [p[0], p[1], p[2]] + p[3..];
    } else if |p| == 2 {
      ScanLastTwo(p[0], p[1]);
      assert p == [p[0], p[1]];
    } else if |p| == 1 {
      ScanLastOne(p[0]);
      assert p == [p[0]];
    }
  }

  /** The encoder writes only the alphabet and padding. */
  lemma {:induction false} EncodeAlphabet(p: seq<Byte>)
    ensures forall c | c in Encode(p) :: c == '=' || Value(c).Some?
    decreases |p|
  {
    if |p| >= 3 { EncodeAlphabet(p[3..]); }
  }

  /** Whatever is encoded decodes to the same bytes. */
  lemma DecodeEncode(p: seq<Byte>)
    ensures Decode(Encode(p)) == Some(p)
  {
    ScanEncode(p);
    EncodeAlphabet(p);
  }

  // ---------------------------------------------------------------- decoding what is not one encoding

  /** What a stretch of text does to the decoder: it meets enough padding and stops, or goes on with bits left over. */
  datatype Fed = Stopped(out: seq<Byte>) | Going(out: seq<Byte>, q: Quad, pads: nat)

  function Feed(s: string, q: Quad, pads: nat): Fed {
    if s == "" then Going([], q, pads)
    else if s[0] == '=' then
      var pads' := if Position(q) >= 2 then pads + 1 else pads;
      if Position(q) >= 2 && Position(q) + pads' >= 4 then Stopped([]) else Feed(s[1..], q, pads')
    else
      match Value(s[0])
      case None => Feed(s[1..], q, pads)
      case Some(v) => Prepend(Output(q, v), Feed(s[1..], Next(q, v), 0))
  }

  function Prepend(first: seq<Byte>, fed: Fed): Fed {
    match fed
    case Stopped(out) => Stopped(first + out)
    case Going(out, q, pads) => Going(first + out, q, pads)
  }

  /** The decoder on the rest of the text, after the first stretch. */
  function ScanRest(fed: Fed, t: string): Option<seq<Byte>> {
    match fed
    case Stopped(out) => Some(out)
    case Going(out, q, pads) =>
      var rest := Scan(t, q, pads);
      if rest.None? then None else Some(out + rest.value)
  }

  /** Decoding goes stretch by stretch. */
  lemma {:induction false} ScanConcat(s: string, t: string, q: Quad, pads: nat)
    ensures Scan(s + t, q, pads) == ScanRest(Feed(s, q, pads), t)
    decreases |s|
  {
    if s == "" {
      assert s + t == t;
      if Scan(t, q, pads).Some? { assert [] + Scan(t, q, pads).value == Scan(t, q, pads).value; }
    } else {
      assert (s + t)[1..] == s[1..] + t;
      var v := Value(s[0]);
      if s[0] != '=' && v.Some? {
        ScanConcat(s[1..], t, Next(q, v.value), 0);
        var fed := Feed(s[1..], Next(q, v.value), 0);
        if fed.Going? && Scan(t, fed.q, fed.pads).Some? {
          assert Output(q, v.value) + (fed.out + Scan(t, fed.q, fed.pads).value)
              == Output(q, v.value) + fed.out + Scan(t, fed.q, fed.pads).value;
        }
      } else {
        ScanConcat(s[1..], t, q, if s[0] == '=' && Position(q) >= 2 then pads + 1 else pads);
      }
    }
  }

  /** The characters of the alphabet in a text. */
  function DataChars(s: string): nat {
    if s == "" then 0 else (if Value(s[0]).Some? then 1 else 0) + DataChars(s[1..])
  }

  lemma {:induction false} DataCharsConcat(s: string, t: string)
    ensures DataChars(s + t) == DataChars(s) + DataChars(t)
    decreases |s|
  {
    if s == "" {
      assert s + t == t;
    } else {
      assert (s + t)[1..] == s[1..] + t;
      DataCharsConcat(s[1..], t);
    }
  }

  /** The bytes that `n` characters complete, from a position in the group on. */
  function Completes(position: nat, n: nat): int {
    3 * (position + n) / 4 - 3 * position / 4
  }

  /** The position after them. */
  function Turned(position: nat, n: nat): nat {
    (position + n) % 4
  }

  lemma CompletesOneMore(position: nat, n: nat)
    requires position < 4
    ensures Completes(position, n + 1) == (if position == 0 then 0 else 1) + Completes(Turned(position, 1), n)
  {
    TurnedOneMore(position, n);
    if position == 3 { assert 3 * (position + (n + 1)) / 4 == 3 * n / 4 + 3; }
  }

  lemma TurnedOneMore(position: nat, n: nat)
    requires position < 4
    ensures Turned(position, 1) == if position == 3 then 0 else position + 1
    ensures Turned(Turned(position, 1), n) == Turned(position, n + 1)
  {
    if position == 3 { assert (position + (n + 1)) % 4 == n % 4; }
  }

  lemma QuadTurns(q: Quad, v: Sextet)
    ensures Position(q) < 4 && Position(Next(q, v)) == Turned(Position(q), 1)
    ensures |Output(q, v)| == if Position(q) == 0 then 0 else 1
  {}

  /** Fed with `n` characters of the alphabet from a position in the group on, the decoder gave what they complete. */
  predicate Gave(fed: Fed, position: nat, n: nat) {
    fed.Going? ==> |fed.out| == Completes(position, n) && Position(fed.q) == Turned(position, n)
  }

  lemma PrependGave(q: Quad, v: Sextet, fed: Fed, n: nat)
    requires Gave(fed, Position(Next(q, v)), n)
    ensures Gave(Prepend(Output(q, v), fed), Position(q), n + 1)
  {
    hide Completes, Turned, Output, Next, Position;
    QuadTurns(q, v);
    CompletesOneMore(Position(q), n);
    TurnedOneMore(Position(q), n);
  }

  /** Text that does not stop the decoder gives three bytes for every four characters of the alphabet. */
  lemma {:induction false} FeedCount(s: string, q: Quad, pads: nat)
    ensures Gave(Feed(s, q, pads), Position(q), DataChars(s))
    decreases |s|
  {
    assert Value('=') == None;
    hide Value, Completes, Output, Next, Gave, Prepend;
    if s == "" {
    } else if Value(s[0]).Some? {
      var v := Value(s[0]).value;
      FeedCount(s[1..], Next(q, v), 0);
      PrependGave(q, v, Feed(s[1..], Next(q, v), 0), DataChars(s[1..]));
    } else if s[0] == '=' && Position(q) >= 2 {
      FeedCount(s[1..], q, pads + 1);
    } else {
      FeedCount(s[1..], q, pads);
    }
  }

  /** Text without padding never stops the decoder. */
  lemma {:induction false} NoPadsGoing(s: string, q: Quad, pads: nat)
    requires '=' !in s
    ensures Feed(s, q, pads).Going?
    decreases |s|
  {
    if s != "" {
      if Value(s[0]).Some? {
        NoPadsGoing(s[1..], Next(q, Value(s[0]).value), 0);
      } else {
        NoPadsGoing(s[1..], q, pads);
      }
    }
  }

  /** An encoding is text of the alphabet, just enough for its bytes, and padding. */
  lemma {:induction false} EncodeShape(p: seq<Byte>) returns (data: string, pads: string)
    ensures Encode(p) == data + pads && '=' !in data && 3 * DataChars(data) / 4 == |p|
    decreases |p|
  {
    if p == [] {
      data, pads := "", "";
    } else if |p| == 1 {
      data, pads := Encode(p)[..2], "==";
      DataCharsShort(data);
    } else if |p| == 2 {
      data, pads := Encode(p)[..3], "=";
      DataCharsShort(data);
    } else {
      var rest;
      rest, pads := EncodeShape(p[3..]);
      var four := Encode(p)[..4];
      DataCharsShort(four);
      DataCharsConcat(four, rest);
      data := four + rest;
      assert Encode(p) == four + (rest + pads);
    }
  }

  lemma DataCharsShort(s: string)
    requires |s| <= 4 && forall c | c in s :: Value(c).Some?
    ensures DataChars(s) == |s|
    decreases |s|
  {
    if s != "" {
      assert s[0] in s && forall c | c in s[1..] :: c in s;
      DataCharsShort(s[1..]);
    }
  }

  /** Text in front of an encoding that has six characters of the alphabet or more: the payload still comes out if and
      only if the text in front is enough to make the decoder stop, with that very payload. */
  lemma PrefixedDecode(front: string, p: seq<Byte>)
    requires DataChars(front) >= 6
    ensures Decode(front + Encode(p)) == Some(p) <==> Ascii(front) && Feed(front, Zero, 0) == Stopped(p)
  {
    EncodeAlphabet(p);
    assert Ascii(front + Encode(p)) <==> Ascii(front) by {
      if Ascii(front) { assert forall c | c in Encode(p) :: (c as int) < 128; }
      if Ascii(front + Encode(p)) { assert forall c | c in front :: c in front + Encode(p); }
    }
    ScanConcat(front, Encode(p), Zero, 0);
    if Feed(front, Zero, 0).Going? { PrefixLengthens(front, p); }
  }

  lemma PrefixLengthens(front: string, p: seq<Byte>)
    requires DataChars(front) >= 6 && Feed(front, Zero, 0).Going?
    ensures Scan(front + Encode(p), Zero, 0).Some? ==> |Scan(front + Encode(p), Zero, 0).value| > |p|
  {
    var data, pads := EncodeShape(p);
    var fed := Feed(front, Zero, 0);
    FeedConcat(front, data, Zero, 0);
    NoPadsGoing(data, fed.q, fed.pads);
    DataCharsConcat(front, data);
    FeedCount(front + data, Zero, 0);
    assert front + Encode(p) == (front + data) + pads;
    ScanConcat(front + data, pads, Zero, 0);
  }

  lemma {:induction false} FeedConcat(s: string, t: string, q: Quad, pads: nat)
    ensures Feed(s, q, pads).Going? ==>
              (Feed(s + t, q, pads).Going? <==> Feed(t, Feed(s, q, pads).q, Feed(s, q, pads).pads).Going?)
    decreases |s|
  {
    if s == "" {
      assert s + t == t;
    } else {
      assert (s + t)[1..] == s[1..] + t;
      if s[0] != '=' && Value(s[0]).Some? {
        FeedConcat(s[1..], t, Next(q, Value(s[0]).value), 0);
      } else {
        FeedConcat(s[1..], t, q, if s[0] == '=' && Position(q) >= 2 then pads + 1 else pads);
      }
    }
  }

  // ---------------------------------------------------------------- how lenient the decoder is

  /** It stops at enough padding, skips what it does not know, and refuses data that end within a group and text that
      is not ASCII. */
  lemma LenientVectors()
    ensures Decode("Zg==") == Some([102]) && Decode("Zg==Zg==") == Some([102]) && Decode("Z!g==") == Some([102])
    ensures Decode("Zg") == None && Decode("Zg=") == None && Decode("Z") == None && Decode("") == Some([])
    ensures forall s | !Ascii(s) :: Decode(s) == None
  {
    assert Value('Z') == Some(25) && Value('g') == Some(32) && Value('!') == None;
    assert "Zg"[1..] == "g" && "g"[1..] == "" && "Zg="[1..] == "g=" && "g="[1..] == "=" && "="[1..] == "";
    assert "Z"[1..] == "";
    StopsAt("");
    StopsAt("Zg==");
    var all := "Z!g==";
    assert all[1..] == "!g==" && "!g=="[1..] == "g==";
    assert Scan(all, Zero, 0) == Scan("Zg==", Zero, 0) by {
      assert "Zg=="[1..] == "g==";
      assert Scan("!g==", One(25), 0) == Scan("g==", One(25), 0);
    }
  }

  lemma StopsAt(more: string)
    ensures Scan("Zg==" + more, Zero, 0) == Some([102])
  {
    var all := "Zg==" + more;
    assert all[1..] == "g==" + more && ("g==" + more)[1..] == "==" + more && ("==" + more)[1..] == "=" + more;
    assert Scan("=" + more, Two(0), 1) == Some([]);
    assert Scan("==" + more, Two(0), 0) == Some([]);
    assert Value('Z') == Some(25) && Value('g') == Some(32);
    assert Next(One(25), 32) == Two(0) && Output(One(25), 32) == [102];
    assert [102 as Byte] + [] == [102] && [] + [102 as Byte] == [102];
    assert Scan("g==" + more, One(25), 0) == Some([102]);
  }
}
