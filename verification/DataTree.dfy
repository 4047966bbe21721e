/** Taking the data URLs of a tree out into numbered files, and putting them back. */
module DataTree {
  import opened Options
  import opened Base64
  import opened DataUrl

  datatype Shape = DictShape(keys: seq<string>) | ListShape | TupleShape

  /** A tree without sets; a dictionary carries its keys, in order, in its shape. */
  datatype Tree = Text(s: string) | Node(shape: Shape, children: seq<Tree>) | Other(n: nat)

  /** What the standard library knows about media types and digits. */
  datatype World = World(
    guessExtension: string -> Option<string>,
    guessMime: string -> Option<string>,
    isDigit: char -> bool)

  predicate ExtensionChar(c: char) {
    'A' <= c <= 'Z' || 'a' <= c <= 'z' || '0' <= c <= '9' || c == '.' || c == '_' || c == '+' || c == '-'
  }

  predicate IsExtension(e: string) {
    |e| >= 2 && e[0] == '.' && forall i | 1 <= i < |e| :: ExtensionChar(e[i])
  }

  ghost predicate Sane(w: World) {
    && (forall mime: string :: w.guessExtension(mime).Some? ==> IsExtension(w.guessExtension(mime).value))
    && (forall name: string :: w.guessMime(name).Some? ==> ',' !in w.guessMime(name).value)
    && (forall c: char | '0' <= c <= '9' :: w.isDigit(c))
    && !w.isDigit('.')
  }

  // ---------------------------------------------------------------- names

  function Digit(d: nat): char
    requires d < 10
  {
    (d + 48) as char
  }

  function Digits(n: nat): string {
    if n < 10 then [Digit(n)] else Digits(n / 10) + [Digit(n % 10)]
  }

  /** At least three digits, padded with zeros. */
  function Padded(n: nat): string {
    if n < 10 then "00" + Digits(n) else if n < 100 then "0" + Digits(n) else Digits(n)
  }

  function Number(s: string): int {
    if s == "" then 0 else Number(s[..|s| - 1]) * 10 + (s[|s| - 1] as int - 48)
  }

  predicate AllDigits(s: string) {
    forall i | 0 <= i < |s| :: '0' <= s[i] <= '9'
  }

  lemma {:induction false} DigitsSpec(n: nat)
    ensures AllDigits(Digits(n)) && Number(Digits(n)) == n
    ensures n >= 10 ==> |Digits(n)| >= 2
    ensures n >= 100 ==> |Digits(n)| >= 3
    ensures n < 10 ==> |Digits(n)| == 1
    ensures n < 100 ==> |Digits(n)| <= 2
    ensures n < 1000 ==> |Digits(n)| <= 3
    ensures n > 0 ==> Digits(n)[0] != '0'
    decreases n
  {
    if n >= 10 {
      DigitsSpec(n / 10);
      assert Digits(n)[..|Digits(n)| - 1] == Digits(n / 10);
    } else {
      assert Number("") == 0 && Digits(n)[..0] == "";
    }
  }

  lemma {:induction false} LeadingZero(s: string)
    ensures Number("0" + s) == Number(s)
    decreases |s|
  {
    var t := "0" + s;
    if s != "" {
      LeadingZero(s[..|s| - 1]);
      assert t[..|t| - 1] == "0" + s[..|s| - 1];
    } else {
      assert t[..0] == "";
    }
  }

  lemma PaddedSpec(n: nat)
    ensures AllDigits(Padded(n)) && |Padded(n)| >= 3 && Number(Padded(n)) == n
    ensures if n < 1000 then |Padded(n)| == 3 else Padded(n)[0] != '0'
  {
    DigitsSpec(n);
    var d := Digits(n);
    assert |d| >= 1;
    LeadingZero(d);
    LeadingZero("0" + d);
    hide Number, Digits;
    assert AllDigits("0" + d);
    assert "00" + d == "0" + ("0" + d);
    if n < 10 {
      assert Padded(n) == "00" + d;
    } else if n < 100 {
      assert Padded(n) == "0" + d;
    }
  }

  function Name(index: nat, extension: string): string {
    Padded(index) + extension
  }

  /** The number of a file can be read off its name. */
  lemma NameInjective(i: nat, e: string, j: nat, f: string)
    requires IsExtension(e) && IsExtension(f) && Name(i, e) == Name(j, f)
    ensures i == j
  {
    PaddedSpec(i);
    PaddedSpec(j);
    var a, b := |Padded(i)|, |Padded(j)|;
    assert Name(i, e)[a] == '.' && Name(j, f)[b] == '.';
    assert forall k | 0 <= k < a :: Name(i, e)[k] == Padded(i)[k];
    assert forall k | 0 <= k < b :: Name(j, f)[k] == Padded(j)[k];
    assert a == b;
    assert Padded(i) == Name(i, e)[..a] && Padded(j) == Name(j, f)[..b];
  }

  function LeadingDigits(w: World, s: string): (k: nat)
    ensures k <= |s| && (forall i | 0 <= i < k :: w.isDigit(s[i])) && (k < |s| ==> !w.isDigit(s[k]))
  {
    if s != "" && w.isDigit(s[0]) then 1 + LeadingDigits(w, s[1..]) else 0
  }

  /** Three or more digits, a dot, and an extension; one line break may follow. */
  predicate FileShaped(w: World, s: string) {
    var t := if s != "" && s[|s| - 1] == '\n' then s[..|s| - 1] else s;
    var k := LeadingDigits(w, t);
    k >= 3 && k < |t| && IsExtension(t[k..])
  }

  /** That is: three digits at least, then an extension, then nothing or a line break. */
  lemma FileShapedIff(w: World, s: string)
    requires Sane(w)
    ensures FileShaped(w, s) <==> exists digits, e :: NamedSo(w, s, digits, e)
  {
    if FileShaped(w, s) { ShapedIsNamed(w, s); }
    forall digits, e | NamedSo(w, s, digits, e) ensures FileShaped(w, s) { NamedIsShaped(w, s, digits, e); }
  }

  lemma ShapedIsNamed(w: World, s: string)
    requires FileShaped(w, s)
    ensures exists digits, e :: NamedSo(w, s, digits, e)
  {
    var t := if s != "" && s[|s| - 1] == '\n' then s[..|s| - 1] else s;
    var k := LeadingDigits(w, t);
    var digits, e := t[..k], t[k..];
    assert IsExtension(e) && t == digits + e && (s == t || s == t + "\n");
    hide LeadingDigits, FileShaped;
    assert NamedSo(w, s, digits, e);
  }

  lemma NamedIsShaped(w: World, s: string, digits: string, e: string)
    requires Sane(w) && NamedSo(w, s, digits, e)
    ensures FileShaped(w, s)
  {
    var t, k := digits + e, |digits|;
    assert t[k] == '.' && t[k..] == e && t[|t| - 1] == e[|e| - 1] && forall i | 0 <= i < k :: t[i] == digits[i];
    hide NamedSo;
    assert LeadingDigits(w, t) == k;
    hide LeadingDigits;
    assert s == t || (s[|s| - 1] == '\n' && s[..|s| - 1] == t);
  }

  ghost predicate NamedSo(w: World, s: string, digits: string, e: string) {
    && |digits| >= 3 && (forall i | 0 <= i < |digits| :: w.isDigit(digits[i]))
    && |e| >= 2 && e[0] == '.' && (forall i | 1 <= i < |e| :: ExtensionChar(e[i]))
    && (s == digits + e || s == digits + e + "\n")
  }

  lemma NamesAreShaped(w: World, index: nat, e: string)
    requires Sane(w) && IsExtension(e)
    ensures FileShaped(w, Name(index, e))
  {
    PaddedSpec(index);
    hide Padded, Sane;
    var s, k := Name(index, e), |Padded(index)|;
    assert s[|s| - 1] != '\n' by {
      assert s[|s| - 1] == e[|e| - 1] && ExtensionChar(e[|e| - 1]);
    }
    LeadingDigitsAre(w, Padded(index), e);
    assert s[k..] == e;
  }

  lemma LeadingDigitsAre(w: World, digits: string, rest: string)
    requires Sane(w) && AllDigits(digits) && rest != "" && rest[0] == '.'
    ensures LeadingDigits(w, digits + rest) == |digits|
  {
    var s := digits + rest;
    assert s[|digits|] == '.' && forall i | 0 <= i < |digits| :: s[i] == digits[i];
  }

  // ---------------------------------------------------------------- media types and extensions

  function KnownExtension(mime: string): string {
    if mime == "image/jpeg" || mime == "image/jpg" then ".jpg"
    else if mime == "image/png" then ".png"
    else if mime == "image/gif" then ".gif"
    else if mime == "image/webp" then ".webp"
    else if mime == "image/svg+xml" then ".svg"
    else if mime == "application/json" then ".json"
    else if mime == "text/plain" then ".txt"
    else if mime == "application/pdf" then ".pdf"
    else if mime == "audio/mpeg" then ".mp3"
    else if mime == "audio/wav" then ".wav"
    else if mime == "video/mp4" then ".mp4"
    else ""
  }

  function KnownMime(e: string): string {
    if e == ".jpg" then "image/jpeg"
    else if e == ".png" then "image/png"
    else if e == ".gif" then "image/gif"
    else if e == ".webp" then "image/webp"
    else if e == ".svg" then "image/svg+xml"
    else if e == ".json" then "application/json"
    else if e == ".txt" then "text/plain"
    else if e == ".pdf" then "application/pdf"
    else if e == ".mp3" then "audio/mpeg"
    else if e == ".wav" then "audio/wav"
    else if e == ".mp4" then "video/mp4"
    else ""
  }

  function Extension(w: World, mime: string): string {
    var guess := w.guessExtension(mime);
    var e := if KnownExtension(mime) != "" then KnownExtension(mime) else if guess.Some? then guess.value else ".bin";
    if e == ".jpe" then ".jpg" else e
  }

  /** What follows the last dot, in lower case, with its dot. */
  function Suffix(name: string): string {
    if name == "" then "" else if name[|name| - 1] == '.' then "." else
      var s := Suffix(name[..|name| - 1]);
      if s == "" then "" else s + [LowerChar(name[|name| - 1])]
  }

  function MimeOf(w: World, name: string): string {
    var e := Suffix(name);
    var guess := w.guessMime("x" + e);
    if KnownMime(e) != "" then KnownMime(e)
    else if guess.Some? && guess.value != "" then Lower(guess.value) else "application/octet-stream"
  }

  lemma ExtensionIs(w: World, mime: string)
    requires Sane(w)
    ensures IsExtension(Extension(w, mime))
  {}

  lemma MimeNoComma(w: World, name: string)
    requires Sane(w)
    ensures ',' !in MimeOf(w, name)
  {
    hide Suffix, Lower;
    var guess := w.guessMime("x" + Suffix(name));
    if guess.Some? { LowerSpec(guess.value); }
  }

  // ---------------------------------------------------------------- extract

  /** The names given so far, the next number, and the files of the directory. */
  datatype Store = Store(seen: map<seq<Byte>, string>, index: nat, files: map<string, seq<Byte>>)

  function NameFor(w: World, st: Store, u: Url): string {
    if u.payload in st.seen then st.seen[u.payload] else Name(st.index, Extension(w, u.mime))
  }

  /** A new payload gets the next number and its own file. */
  function WithName(st: Store, p: seq<Byte>, name: string): Store {
    Store(st.seen[p := name], st.index + 1, st.files[name := p])
  }

  function Place(w: World, st: Store, u: Url): Store {
    if u.payload in st.seen then st
    else WithName(st, u.payload, NameFor(w, st, u))
  }

  datatype Extracted = Extracted(tree: Tree, store: Store)

  function Extract(w: World, st: Store, t: Tree): Extracted
    decreases t, 1, 0
  {
    match t
    case Text(s) =>
      var u := Parse(s);
      if u.None? then Extracted(t, st) else Extracted(Text(NameFor(w, st, u.value)), Place(w, st, u.value))
    case Node(shape, children) =>
      var (out, st') := ExtractFirst(w, st, t, |children|);
      Extracted(Node(shape, out), st')
    case Other(_) => Extracted(t, st)
  }

  /** The first `n` children, left to right. */
  function ExtractFirst(w: World, st: Store, t: Tree, n: nat): (r: (seq<Tree>, Store))
    requires t.Node? && n <= |t.children|
    ensures |r.0| == n
    decreases t, 0, n
  {
    if n == 0 then ([], st)
    else
      var (out, st') := ExtractFirst(w, st, t, n - 1);
      var last := Extract(w, st', t.children[n - 1]);
      (out + [last.tree], last.store)
  }

  // ---------------------------------------------------------------- rebuild

  /** Puts the files back; `None` is the error of a missing file in strict mode. */
  function Rebuild(w: World, files: map<string, seq<Byte>>, strict: bool, t: Tree): Option<Tree> {
    match t
    case Text(s) =>
      if !FileShaped(w, s) then Some(t)
      else if s !in files then if strict then None else Some(t)
      else Some(Text(Build(MimeOf(w, s), files[s], [])))
    case Node(shape, children) =>
      var out := seq(|children|, i requires 0 <= i < |children| => Rebuild(w, files, strict, children[i]));
      if exists i :: 0 <= i < |out| && out[i].None? then None
      else Some(Node(shape, seq(|out|, i requires 0 <= i < |out| => out[i].value)))
    case Other(_) => Some(t)
  }

  // ---------------------------------------------------------------- what extraction does

  predicate IsData(s: string) {
    Parse(s).Some?
  }

  function Payload(s: string): seq<Byte>
    requires IsData(s)
  {
    Parse(s).value.payload
  }

  function Payloads(t: Tree): set<seq<Byte>> {
    match t
    case Text(s) => if IsData(s) then {Payload(s)} else {}
    case Node(_, children) => set i, p | 0 <= i < |children| && p in Payloads(children[i]) :: p
    case Other(_) => {}
  }

  /** Every name given is numbered below the next number and its file holds the payload. */
  ghost predicate Consistent(st: Store) {
    forall p | p in st.seen ::
      && st.seen[p] in st.files && st.files[st.seen[p]] == p
      && exists i: nat, e :: i < st.index && IsExtension(e) && st.seen[p] == Name(i, e)
  }

  /** `b` came from `a` by giving names to new payloads, one number and one file each; nothing else changed. */
  ghost predicate Grew(a: Store, b: Store) {
    && (forall p | p in a.seen :: p in b.seen && b.seen[p] == a.seen[p])
    && b.index - a.index == |b.seen| - |a.seen|
    && a.files.Keys <= b.files.Keys
    && forall name | name in b.files ::
         (name in a.files && b.files[name] == a.files[name])
             || (exists p :: p in b.seen && p !in a.seen && name == b.seen[p])
  }

  /** `t'` is `t` with every data URL replaced by the name of its payload. */
  predicate Replaced(seen: map<seq<Byte>, string>, t: Tree, t': Tree) {
    match t
    case Text(s) =>
      if IsData(s) then Payload(s) in seen && t' == Text(seen[Payload(s)]) else t' == t
    case Node(shape, children) =>
      t'.Node? && t'.shape == shape && |t'.children| == |children| &&
      forall i | 0 <= i < |children| :: Replaced(seen, children[i], t'.children[i])
    case Other(_) => t' == t
  }

  lemma GrewRefl(st: Store)
    ensures Grew(st, st)
  {}

  lemma PlaceSpec(w: World, st: Store, u: Url)
    requires Sane(w) && Consistent(st)
    ensures var st' := Place(w, st, u);
            && Consistent(st') && Grew(st, st')
            && st'.seen.Keys == st.seen.Keys + {u.payload} && st'.seen[u.payload] == NameFor(w, st, u)
  {
    if u.payload in st.seen {
      GrewRefl(st);
      hide Consistent, Grew, Sane;
      assert st.seen.Keys == st.seen.Keys + {u.payload};
    } else {
      var e := Extension(w, u.mime);
      ExtensionIs(w, u.mime);
      assert NameFor(w, st, u) == Name(st.index, e) && Place(w, st, u) == WithName(st, u.payload, Name(st.index, e));
      hide Extension, IsExtension, Name, Consistent, Grew, Sane, Place, NameFor, WithName;
      FreshName(st, e);
      AddName(st, u.payload, e);
      AddGrew(st, u.payload, Name(st.index, e));
    }
  }

  lemma FreshName(st: Store, e: string)
    requires Consistent(st) && IsExtension(e)
    ensures forall p | p in st.seen :: st.seen[p] != Name(st.index, e)
  {
    forall p | p in st.seen ensures st.seen[p] != Name(st.index, e) {
      var i: nat, f :| i < st.index && IsExtension(f) && st.seen[p] == Name(i, f);
      if st.seen[p] == Name(st.index, e) { NameInjective(i, f, st.index, e); }
    }
  }

  lemma AddName(st: Store, p: seq<Byte>, e: string)
    requires Consistent(st) && IsExtension(e) && p !in st.seen
    requires forall q | q in st.seen :: st.seen[q] != Name(st.index, e)
    ensures Consistent(WithName(st, p, Name(st.index, e)))
  {
    hide IsExtension, Name;
    var st' := WithName(st, p, Name(st.index, e));
    forall q | q in st'.seen
      ensures exists i: nat, f :: i < st'.index && IsExtension(f) && st'.seen[q] == Name(i, f)
    {
      if q == p {
        assert st'.seen[q] == Name(st.index, e);
      } else {
        var i: nat, f :| i < st.index && IsExtension(f) && st.seen[q] == Name(i, f);
        assert st'.seen[q] == Name(i, f);
      }
    }
  }

  lemma AddGrew(st: Store, p: seq<Byte>, name: string)
    requires p !in st.seen
    ensures Grew(st, WithName(st, p, name))
    ensures WithName(st, p, name).seen.Keys == st.seen.Keys + {p} && WithName(st, p, name).seen[p] == name
  {
    var st' := WithName(st, p, name);
    assert st'.seen.Keys == st.seen.Keys + {p};
    assert |st'.seen.Keys| == |st.seen.Keys| + 1;
    assert p in st'.seen && st'.seen[p] == name;
  }

  lemma GrewTrans(a: Store, b: Store, c: Store)
    requires Grew(a, b) && Grew(b, c)
    ensures Grew(a, c)
  {
    forall name | name in c.files
      ensures (name in a.files && c.files[name] == a.files[name])
                || (exists p :: p in c.seen && p !in a.seen && name == c.seen[p])
    {
      if name in b.files && c.files[name] == b.files[name] {
        if !(name in a.files && b.files[name] == a.files[name]) {
          var p :| p in b.seen && p !in a.seen && name == b.seen[p];
          assert p in c.seen && name == c.seen[p];
        }
      }
    }
  }

  lemma {:induction false} ReplacedMono(a: map<seq<Byte>, string>, b: map<seq<Byte>, string>, t: Tree,
                                        t': Tree)
    requires Replaced(a, t, t') && forall p | p in a :: p in b && b[p] == a[p]
    ensures Replaced(b, t, t')
    decreases t
  {
    if t.Node? {
      forall i | 0 <= i < |t.children| ensures Replaced(b, t.children[i], t'.children[i]) {
        ReplacedMono(a, b, t.children[i], t'.children[i]);
      }
    }
  }

  lemma ExtractTextSpec(w: World, st: Store, s: string)
    requires Sane(w) && Consistent(st)
    ensures var x := Extract(w, st, Text(s));
            && Consistent(x.store) && Grew(st, x.store)
            && x.store.seen.Keys == st.seen.Keys + Payloads(Text(s))
            && Replaced(x.store.seen, Text(s), x.tree)
  {
    hide Place, NameFor, Consistent, Grew, Parse, Sane;
    GrewRefl(st);
    if IsData(s) { PlaceSpec(w, st, Parse(s).value); }
  }

  /** Extraction replaces exactly the data URLs, gives every payload one name, and writes every new payload once. */
  lemma {:induction false} ExtractSpec(w: World, st: Store, t: Tree)
    requires Sane(w) && Consistent(st)
    ensures var x := Extract(w, st, t);
            && Consistent(x.store) && Grew(st, x.store)
            && x.store.seen.Keys == st.seen.Keys + Payloads(t)
            && Replaced(x.store.seen, t, x.tree)
    decreases t, 1, 0
  {
    hide Consistent, Grew, Sane, ExtractFirst;
    match t
    case Text(s) => ExtractTextSpec(w, st, s);
    case Node(_, children) =>
      ExtractFirstSpec(w, st, t, |children|);
      assert FirstPayloads(t, |children|) == Payloads(t);
    case Other(_) => GrewRefl(st);
  }

  function FirstPayloads(t: Tree, n: nat): set<seq<Byte>>
    requires t.Node? && n <= |t.children|
  {
    set i, p | 0 <= i < n && p in Payloads(t.children[i]) :: p
  }

  lemma OneMorePayload(t: Tree, n: nat)
    requires t.Node? && n < |t.children|
    ensures FirstPayloads(t, n + 1) == FirstPayloads(t, n) + Payloads(t.children[n])
  {
    hide Payloads;
  }

  lemma UnionAssoc<T>(a: set<T>, b: set<T>, c: set<T>)
    ensures a + b + c == a + (b + c)
  {}

  predicate FirstReplaced(seen: map<seq<Byte>, string>, t: Tree, out: seq<Tree>) {
    t.Node? && |out| <= |t.children| && forall i | 0 <= i < |out| :: Replaced(seen, t.children[i], out[i])
  }

  lemma FirstReplacedMono(a: map<seq<Byte>, string>, b: map<seq<Byte>, string>, t: Tree, out: seq<Tree>)
    requires FirstReplaced(a, t, out) && forall p | p in a :: p in b && b[p] == a[p]
    ensures FirstReplaced(b, t, out)
  {
    forall i | 0 <= i < |out| ensures Replaced(b, t.children[i], out[i]) {
      ReplacedMono(a, b, t.children[i], out[i]);
    }
  }

  /** What extraction promises about the first children. */
  ghost predicate FirstExtracted(st: Store, t: Tree, out: seq<Tree>, st': Store) {
    && t.Node? && |out| <= |t.children|
    && Consistent(st') && Grew(st, st')
    && st'.seen.Keys == st.seen.Keys + FirstPayloads(t, |out|)
    && FirstReplaced(st'.seen, t, out)
  }

  lemma {:induction false} ExtractFirstSpec(w: World, st: Store, t: Tree, n: nat)
    requires Sane(w) && Consistent(st) && t.Node? && n <= |t.children|
    ensures var (out, st') := ExtractFirst(w, st, t, n); FirstExtracted(st, t, out, st')
    decreases t, 0, n
  {
    hide *;
    if n == 0 {
      NoneExtracted(w, st, t);
    } else {
      var (out, st1) := ExtractFirst(w, st, t, n - 1);
      var last := Extract(w, st1, t.children[n - 1]);
      ExtractFirstSpec(w, st, t, n - 1);
      FirstConsistent(st, t, out, st1);
      ExtractSpec(w, st1, t.children[n - 1]);
      ExtractFirstStep(w, st, t, n);
      ExtractOneMore(w, st, t, out, st1, last);
    }
  }

  lemma NoneExtracted(w: World, st: Store, t: Tree)
    requires t.Node? && Consistent(st)
    ensures ExtractFirst(w, st, t, 0) == ([], st) && FirstExtracted(st, t, [], st)
  {
    GrewRefl(st);
    assert FirstPayloads(t, 0) == {};
    hide Consistent, Grew;
  }

  lemma ExtractFirstStep(w: World, st: Store, t: Tree, n: nat)
    requires t.Node? && 0 < n <= |t.children|
    ensures var (out, st1) := ExtractFirst(w, st, t, n - 1);
            var last := Extract(w, st1, t.children[n - 1]);
            ExtractFirst(w, st, t, n) == (out + [last.tree], last.store)
  {
    hide Extract;
  }

  lemma FirstConsistent(st: Store, t: Tree, out: seq<Tree>, st1: Store)
    requires FirstExtracted(st, t, out, st1)
    ensures Consistent(st1)
  {}

  lemma ExtractOneMore(w: World, st: Store, t: Tree, out: seq<Tree>, st1: Store, last: Extracted)
    requires FirstExtracted(st, t, out, st1) && |out| < |t.children|
    requires Consistent(last.store) && Grew(st1, last.store)
    requires last.store.seen.Keys == st1.seen.Keys + Payloads(t.children[|out|])
    requires Replaced(last.store.seen, t.children[|out|], last.tree)
    ensures FirstExtracted(st, t, out + [last.tree], last.store)
  {
    hide Consistent, Grew, Payloads, FirstPayloads, Replaced, FirstReplaced;
    var n := |out|;
    GrewTrans(st, st1, last.store);
    OneMorePayload(t, n);
    UnionAssoc(st.seen.Keys, FirstPayloads(t, n), Payloads(t.children[n]));
    assert |out + [last.tree]| == n + 1;
    GrewSeen(st1, last.store);
    FirstReplacedMono(st1.seen, last.store.seen, t, out);
    FirstReplacedSnoc(last.store.seen, t, out, last.tree);
  }

  lemma GrewSeen(a: Store, b: Store)
    requires Grew(a, b)
    ensures forall p | p in a.seen :: p in b.seen && b.seen[p] == a.seen[p]
  {}

  lemma FirstReplacedSnoc(seen: map<seq<Byte>, string>, t: Tree, out: seq<Tree>, last: Tree)
    requires FirstReplaced(seen, t, out) && |out| < |t.children| && Replaced(seen, t.children[|out|], last)
    ensures FirstReplaced(seen, t, out + [last])
  {}

  /** Different payloads get different names. */
  lemma NamesDistinct(st: Store, p: seq<Byte>, q: seq<Byte>)
    requires Consistent(st) && p in st.seen && q in st.seen && st.seen[p] == st.seen[q]
    ensures p == q
  {
    assert st.files[st.seen[p]] == p;
  }

  // ---------------------------------------------------------------- there and back

  /** `r` is `t` but for the data URLs, which hold the same payloads. */
  predicate Matches(t: Tree, r: Tree) {
    match t
    case Text(s) =>
      if IsData(s) then r.Text? && IsData(r.s) && Payload(r.s) == Payload(s) else r == t
    case Node(shape, children) =>
      r.Node? && r.shape == shape && |r.children| == |children| &&
      forall i | 0 <= i < |children| :: Matches(children[i], r.children[i])
    case Other(_) => r == t
  }

  /** Some plain text of the tree is shaped like a numbered file and, unless `strict`, names one that exists. */
  predicate Mistakable(w: World, files: map<string, seq<Byte>>, strict: bool, t: Tree) {
    match t
    case Text(s) => !IsData(s) && FileShaped(w, s) && (strict || s in files)
    case Node(_, children) => exists i :: 0 <= i < |children| && Mistakable(w, files, strict, children[i])
    case Other(_) => false
  }

  lemma {:induction false} RebuildReplaced(w: World, st: Store, strict: bool, t: Tree, t': Tree)
    requires Sane(w) && Consistent(st) && Replaced(st.seen, t, t')
    ensures var r := Rebuild(w, st.files, strict, t');
            && (r.Some? && Matches(t, r.value) <==> !Mistakable(w, st.files, strict, t))
            && (!strict ==> r.Some?)
    decreases t
  {
    match t
    case Text(s) => RebuildText(w, st, strict, s, t');
    case Node(shape, children) =>
      forall i | 0 <= i < |children|
        ensures var r := Rebuild(w, st.files, strict, t'.children[i]);
                && (r.Some? && Matches(children[i], r.value) <==> !Mistakable(w, st.files, strict, children[i]))
                && (!strict ==> r.Some?)
      {
        RebuildReplaced(w, st, strict, children[i], t'.children[i]);
      }
      var out := seq(|children|, i requires 0 <= i < |children| => Rebuild(w, st.files, strict, t'.children[i]));
      assert forall i | 0 <= i < |children| :: out[i] == Rebuild(w, st.files, strict, t'.children[i]);
    case Other(_) =>
  }

  lemma RebuildText(w: World, st: Store, strict: bool, s: string, t': Tree)
    requires Sane(w) && Consistent(st) && Replaced(st.seen, Text(s), t')
    ensures var r := Rebuild(w, st.files, strict, t');
            && (r.Some? && Matches(Text(s), r.value) <==> !Mistakable(w, st.files, strict, Text(s)))
            && (!strict ==> r.Some?)
  {
    if IsData(s) {
      SeenName(w, st, Payload(s));
      RebuiltFile(w, t'.s, Payload(s));
    } else if FileShaped(w, s) && s in st.files {
      RebuiltFile(w, s, st.files[s]);
    }
    hide FileShaped, Consistent, Sane, Build, Parse, MimeOf;
  }

  lemma SeenName(w: World, st: Store, p: seq<Byte>)
    requires Sane(w) && Consistent(st) && p in st.seen
    ensures FileShaped(w, st.seen[p]) && st.seen[p] in st.files && st.files[st.seen[p]] == p
  {
    var i: nat, e :| i < st.index && IsExtension(e) && st.seen[p] == Name(i, e);
    NamesAreShaped(w, i, e);
  }

  /** What is built for a file is a data URL of its contents. */
  lemma RebuiltFile(w: World, name: string, p: seq<Byte>)
    requires Sane(w)
    ensures var s := Build(MimeOf(w, name), p, []); IsData(s) && Payload(s) == p
  {
    MimeNoComma(w, name);
    BuildKeepsPayload(MimeOf(w, name), p, []);
  }

  /** Extracting a tree and rebuilding it gives back its shape, its plain leaves and the payloads of its data URLs
      exactly when no plain text looks like a numbered file that exists (in strict mode: like any numbered file). */
  lemma RoundTrip(w: World, st: Store, t: Tree, strict: bool)
    requires Sane(w) && Consistent(st)
    ensures var x := Extract(w, st, t);
            var r := Rebuild(w, x.store.files, strict, x.tree);
            && (r.Some? && Matches(t, r.value) <==> !Mistakable(w, x.store.files, strict, t))
            && (!strict ==> r.Some?)
  {
    ExtractSpec(w, st, t);
    var x := Extract(w, st, t);
    RebuildReplaced(w, x.store, strict, t, x.tree);
  }

  // ---------------------------------------------------------------- the media type that comes back

  const TABLE_TYPES := {
    "image/jpeg", "image/jpg", "image/png", "image/gif", "image/webp", "image/svg+xml", "application/json",
    "text/plain", "application/pdf", "audio/mpeg", "audio/wav", "video/mp4"}

  const TABLE_EXTENSIONS := {".jpg", ".png", ".gif", ".webp", ".svg", ".json", ".txt", ".pdf", ".mp3", ".wav", ".mp4"}

  /** Every type of the table has its own extension, but `image/jpg` that of `image/jpeg`. */
  lemma TableExtensions(w: World)
    ensures Extension(w, "image/jpeg") == ".jpg" && Extension(w, "image/jpg") == ".jpg"
    ensures Extension(w, "image/png") == ".png" && Extension(w, "image/gif") == ".gif"
    ensures Extension(w, "image/webp") == ".webp" && Extension(w, "image/svg+xml") == ".svg"
    ensures Extension(w, "application/json") == ".json" && Extension(w, "text/plain") == ".txt"
    ensures Extension(w, "application/pdf") == ".pdf" && Extension(w, "audio/mpeg") == ".mp3"
    ensures Extension(w, "audio/wav") == ".wav" && Extension(w, "video/mp4") == ".mp4"
  {
    ImageExtensions();
    OtherExtensions();
    hide KnownExtension;
  }

  lemma ImageExtensions()
    ensures KnownExtension("image/jpeg") == ".jpg" && KnownExtension("image/jpg") == ".jpg"
    ensures KnownExtension("image/png") == ".png" && KnownExtension("image/gif") == ".gif"
    ensures KnownExtension("image/webp") == ".webp" && KnownExtension("image/svg+xml") == ".svg"
  {}

  lemma OtherExtensions()
    ensures KnownExtension("application/json") == ".json" && KnownExtension("text/plain") == ".txt"
    ensures KnownExtension("application/pdf") == ".pdf" && KnownExtension("audio/mpeg") == ".mp3"
    ensures KnownExtension("audio/wav") == ".wav" && KnownExtension("video/mp4") == ".mp4"
  {}

  /** And every extension of the table one type. */
  lemma TableMimes()
    ensures KnownMime(".jpg") == "image/jpeg" && KnownMime(".png") == "image/png" && KnownMime(".gif") == "image/gif"
    ensures KnownMime(".webp") == "image/webp" && KnownMime(".svg") == "image/svg+xml"
    ensures KnownMime(".json") == "application/json" && KnownMime(".txt") == "text/plain"
    ensures KnownMime(".pdf") == "application/pdf" && KnownMime(".mp3") == "audio/mpeg"
    ensures KnownMime(".wav") == "audio/wav" && KnownMime(".mp4") == "video/mp4"
  {
    ImageMimes();
    TextMimes();
    SoundMimes();
    hide KnownMime;
  }

  lemma ImageMimes()
    ensures KnownMime(".jpg") == "image/jpeg" && KnownMime(".png") == "image/png" && KnownMime(".gif") == "image/gif"
    ensures KnownMime(".webp") == "image/webp" && KnownMime(".svg") == "image/svg+xml"
  {}

  lemma TextMimes()
    ensures KnownMime(".json") == "application/json" && KnownMime(".txt") == "text/plain"
    ensures KnownMime(".pdf") == "application/pdf"
  {}

  lemma SoundMimes()
    ensures KnownMime(".mp3") == "audio/mpeg" && KnownMime(".wav") == "audio/wav" && KnownMime(".mp4") == "video/mp4"
  {}

  lemma {:induction false} SuffixAppend(a: string, e: string)
    requires '.' in e
    ensures Suffix(a + e) == Suffix(e) && Suffix(e) != ""
    decreases |e|
  {
    var n := |e| - 1;
    assert (a + e)[..|a + e| - 1] == a + e[..n] && (a + e)[|a + e| - 1] == e[n];
    if e[n] != '.' {
      assert e == e[..n] + [e[n]];
      SuffixAppend(a, e[..n]);
    }
  }

  /** A dot and then neither dots nor capitals. */
  predicate PlainExtension(e: string) {
    e != "" && e[0] == '.' && forall i | 1 <= i < |e| :: e[i] != '.' && !('A' <= e[i] <= 'Z')
  }

  lemma {:induction false} SuffixPlain(e: string)
    requires PlainExtension(e)
    ensures Suffix(e) == e
    decreases |e|
  {
    var n := |e| - 1;
    if n > 0 {
      SuffixPlain(e[..n]);
      assert e == e[..n] + [e[n]];
    }
  }

  /** The media type under which a payload that was named for type `mime` comes back. */
  function Returned(w: World, mime: string): string {
    MimeOf(w, "x" + Suffix(Extension(w, mime)))
  }

  lemma ReturnedIs(w: World, mime: string, index: nat)
    requires Sane(w)
    ensures MimeOf(w, Name(index, Extension(w, mime))) == Returned(w, mime)
  {
    var e := Extension(w, mime);
    ExtensionIs(w, mime);
    assert '.' in e;
    SuffixAppend(Padded(index), e);
    SuffixAgain(e);
    SuffixAppend("x", Suffix(e));
  }

  lemma {:induction false} SuffixAgain(e: string)
    requires '.' in e
    ensures Suffix(Suffix(e)) == Suffix(e) && '.' in Suffix(e)
    decreases |e|
  {
    var n := |e| - 1;
    if e[n] != '.' {
      assert e == e[..n] + [e[n]];
      SuffixAgain(e[..n]);
      SuffixAppend("", e[..n]);
      var s := Suffix(e[..n]);
      assert Suffix(e) == s + [LowerChar(e[n])];
      assert (s + [LowerChar(e[n])])[..|s|] == s;
    } else {
      assert "."[..0] == "";
    }
  }

  lemma ReturnsBy(w: World, mime: string, e: string, back: string)
    requires Extension(w, mime) == e && PlainExtension(e) && KnownMime(e) == back && back != ""
    ensures Returned(w, mime) == back
  {
    SuffixPlain(e);
    SuffixAppend("x", e);
  }

  /** A type of the table comes back as it was, but for `image/jpg`, which comes back as `image/jpeg`. */
  lemma TableTypesReturn(w: World, mime: string)
    requires mime in TABLE_TYPES
    ensures Returned(w, mime) == if mime == "image/jpg" then "image/jpeg" else mime
  {
    hide Extension, KnownMime, Returned;
    TableExtensions(w);
    TableMimes();
    if mime == "image/jpeg" { ReturnsBy(w, mime, ".jpg", mime); }
    else if mime == "image/jpg" { ReturnsBy(w, mime, ".jpg", "image/jpeg"); }
    else if mime == "image/png" { ReturnsBy(w, mime, ".png", mime); }
    else if mime == "image/gif" { ReturnsBy(w, mime, ".gif", mime); }
    else if mime == "image/webp" { ReturnsBy(w, mime, ".webp", mime); }
    else if mime == "image/svg+xml" { ReturnsBy(w, mime, ".svg", mime); }
    else if mime == "application/json" { ReturnsBy(w, mime, ".json", mime); }
    else if mime == "text/plain" { ReturnsBy(w, mime, ".txt", mime); }
    else if mime == "application/pdf" { ReturnsBy(w, mime, ".pdf", mime); }
    else if mime == "audio/mpeg" { ReturnsBy(w, mime, ".mp3", mime); }
    else if mime == "audio/wav" { ReturnsBy(w, mime, ".wav", mime); }
    else { ReturnsBy(w, mime, ".mp4", mime); }
  }

  /** The tables speak of these types and extensions only. */
  lemma TablesEnd(mime: string, e: string)
    ensures mime !in TABLE_TYPES ==> KnownExtension(mime) == ""
    ensures KnownMime(e) != "" <==> e in TABLE_EXTENSIONS
    ensures KnownMime(e) != "" ==> KnownMime(e) in TABLE_TYPES
  {}

  /** Any other type comes back exactly if the extension guessed for it is none of the table's, and it is the type that
      is guessed for this extension, or the default if there is no guess. */
  lemma OtherTypesReturnIff(w: World, mime: string)
    requires Sane(w) && mime !in TABLE_TYPES
    ensures var guess := if w.guessExtension(mime).Some? then w.guessExtension(mime).value else ".bin";
            var e := Suffix(guess);
            var back := w.guessMime("x" + e);
            Returned(w, mime) == mime <==>
              && guess != ".jpe" && e !in TABLE_EXTENSIONS
              && mime == (if back.Some? && back.value != "" then Lower(back.value) else "application/octet-stream")
  {
    var guess := if w.guessExtension(mime).Some? then w.guessExtension(mime).value else ".bin";
    TablesEnd(mime, "");
    hide KnownExtension, KnownMime, TABLE_TYPES, TABLE_EXTENSIONS;
    var e := Extension(w, mime);
    ExtensionIs(w, mime);
    assert e == if guess == ".jpe" then ".jpg" else guess;
    assert '.' in e;
    SuffixAgain(e);
    SuffixAppend("x", Suffix(e));
    TablesEnd(mime, Suffix(e));
    JpgSuffix();
    hide Suffix, Lower;
  }

  lemma JpgSuffix()
    ensures Suffix(".jpg") == ".jpg" && ".jpg" in TABLE_EXTENSIONS
  {
    SuffixPlain(".jpg");
  }

  // ---------------------------------------------------------------- media types in a whole tree

  /** The type under which a payload stands first in the tree, left to right. */
  function FirstType(t: Tree, p: seq<Byte>): Option<string>
    decreases t, 1, 0
  {
    match t
    case Text(s) => if IsData(s) && Payload(s) == p then Some(Parse(s).value.mime) else None
    case Node(_, children) => FirstTypeIn(t, p, |children|)
    case Other(_) => None
  }

  function FirstTypeIn(t: Tree, p: seq<Byte>, n: nat): Option<string>
    requires t.Node? && n <= |t.children|
    decreases t, 0, n
  {
    if n == 0 then None
    else
      var before := FirstTypeIn(t, p, n - 1);
      if before.Some? then before else FirstType(t.children[n - 1], p)
  }

  /** The payload has been named after this type, or not at all. */
  ghost predicate NamedAfter(w: World, st: Store, p: seq<Byte>, mime: Option<string>) {
    if mime.None? then p !in st.seen
    else p in st.seen && exists i: nat :: st.seen[p] == Name(i, Extension(w, mime.value))
  }

  /** A new payload is named after the type it has first. */
  lemma {:induction false} ExtractNames(w: World, st: Store, t: Tree, p: seq<Byte>)
    requires Sane(w) && Consistent(st) && p !in st.seen
    ensures NamedAfter(w, Extract(w, st, t).store, p, FirstType(t, p))
    decreases t, 1, 0
  {
    hide Sane, Consistent, ExtractFirst;
    match t
    case Text(_) =>
    case Node(_, children) => ExtractFirstNames(w, st, t, |children|, p);
    case Other(_) =>
  }

  lemma {:induction false} ExtractFirstNames(w: World, st: Store, t: Tree, n: nat, p: seq<Byte>)
    requires Sane(w) && Consistent(st) && p !in st.seen && t.Node? && n <= |t.children|
    ensures NamedAfter(w, ExtractFirst(w, st, t, n).1, p, FirstTypeIn(t, p, n))
    decreases t, 0, n
  {
    hide Sane, Consistent, Extract, FirstType, Grew;
    if n > 0 {
      var (out, st1) := ExtractFirst(w, st, t, n - 1);
      ExtractFirstNames(w, st, t, n - 1, p);
      ExtractFirstSpec(w, st, t, n - 1);
      FirstConsistent(st, t, out, st1);
      ExtractSpec(w, st1, t.children[n - 1]);
      GrewSeen(st1, Extract(w, st1, t.children[n - 1]).store);
      if p !in st1.seen { ExtractNames(w, st1, t.children[n - 1], p); }
    }
  }

  /** Guessed media types have the usual form: two names with a slash between them. */
  ghost predicate Typed(w: World) {
    forall name :: w.guessMime(name).Some? && w.guessMime(name).value != "" ==> IsType(Lower(w.guessMime(name).value))
  }

  predicate IsType(mime: string) {
    IsPart(mime) && '/' in mime && Lower(mime) == mime
  }

  /** Every data URL of `t` stands in `r` with the same media type. */
  predicate SameTypes(t: Tree, r: Tree) {
    match t
    case Text(s) =>
      IsData(s) ==> r.Text? && IsData(r.s) && Parse(r.s).value.mime == Parse(s).value.mime
    case Node(_, children) =>
      r.Node? && |r.children| == |children| && forall i | 0 <= i < |children| :: SameTypes(children[i], r.children[i])
    case Other(_) => true
  }

  /** The type of every data URL of `t` is what comes back for the type that its payload has first in `root`. */
  predicate AllReturn(w: World, root: Tree, t: Tree) {
    match t
    case Text(s) =>
      IsData(s) ==>
        && FirstType(root, Payload(s)).Some?
        && Returned(w, FirstType(root, Payload(s)).value) == Parse(s).value.mime
    case Node(_, children) => forall i | 0 <= i < |children| :: AllReturn(w, root, children[i])
    case Other(_) => true
  }

  ghost predicate AllNamed(w: World, st: Store, root: Tree) {
    forall p | p in st.seen :: NamedAfter(w, st, p, FirstType(root, p))
  }

  lemma {:induction false} RebuildTypes(w: World, st: Store, strict: bool, root: Tree, t: Tree, t': Tree)
    requires Sane(w) && Typed(w) && Consistent(st) && AllNamed(w, st, root) && Replaced(st.seen, t, t')
    requires Rebuild(w, st.files, strict, t').Some?
    ensures SameTypes(t, Rebuild(w, st.files, strict, t').value) <==> AllReturn(w, root, t)
    decreases t
  {
    match t
    case Text(s) =>
      if IsData(s) { RebuildLeafType(w, st, strict, root, s, t'.s); }
    case Node(shape, children) =>
      var out := seq(|children|, i requires 0 <= i < |children| => Rebuild(w, st.files, strict, t'.children[i]));
      forall i | 0 <= i < |children|
        ensures out[i].Some? && (SameTypes(children[i], out[i].value) <==> AllReturn(w, root, children[i]))
      {
        assert out[i] == Rebuild(w, st.files, strict, t'.children[i]);
        RebuildTypes(w, st, strict, root, children[i], t'.children[i]);
      }
    case Other(_) =>
  }

  lemma RebuildLeafType(w: World, st: Store, strict: bool, root: Tree, s: string, name: string)
    requires Sane(w) && Typed(w) && Consistent(st) && AllNamed(w, st, root)
    requires IsData(s) && Payload(s) in st.seen && name == st.seen[Payload(s)]
    ensures var r := Rebuild(w, st.files, strict, Text(name));
            && r.Some? && r.value.Text? && IsData(r.value.s) && FirstType(root, Payload(s)).Some?
            && Parse(r.value.s).value.mime == Returned(w, FirstType(root, Payload(s)).value)
  {
    var p := Payload(s);
    var first := FirstType(root, p);
    assert NamedAfter(w, st, p, first);
    SeenName(w, st, p);
    var i: nat :| name == Name(i, Extension(w, first.value));
    ReturnedIs(w, first.value, i);
    MimeIsType(w, name);
    BuildKeepsType(MimeOf(w, name), p);
    hide Sane, Typed, Consistent, AllNamed, Parse, Build, MimeOf, Name, Extension, FirstType;
  }

  lemma MimeIsType(w: World, name: string)
    requires Typed(w)
    ensures IsType(MimeOf(w, name))
  {
    var e := Suffix(name);
    TableTypesAreTypes();
    TablesEnd("", e);
    hide KnownMime, KnownExtension, Suffix, IsType, TABLE_TYPES, TABLE_EXTENSIONS;
  }

  predicate TypeChar(c: char) {
    'a' <= c <= 'z' || '0' <= c <= '9' || c == '/' || c == '+' || c == '-'
  }

  lemma PlainType(mime: string, k: nat)
    requires k < |mime| && mime[k] == '/' && forall i | 0 <= i < |mime| :: TypeChar(mime[i])
    ensures IsType(mime)
  {
    assert Lower(mime) == mime;
  }

  lemma ImageTypesAreTypes()
    ensures IsType("image/jpeg") && IsType("image/jpg") && IsType("image/png")
    ensures IsType("image/gif") && IsType("image/webp") && IsType("image/svg+xml")
  {
    hide IsType;
    PlainType("image/jpeg", 5);
    PlainType("image/jpg", 5);
    PlainType("image/png", 5);
    PlainType("image/gif", 5);
    PlainType("image/webp", 5);
    PlainType("image/svg+xml", 5);
  }

  lemma OtherTypesAreTypes()
    ensures IsType("application/json") && IsType("text/plain") && IsType("application/pdf")
    ensures IsType("audio/mpeg") && IsType("audio/wav") && IsType("video/mp4") && IsType("application/octet-stream")
  {
    hide IsType;
    PlainType("application/json", 11);
    PlainType("text/plain", 4);
    PlainType("application/pdf", 11);
    PlainType("audio/mpeg", 5);
    PlainType("audio/wav", 5);
    PlainType("video/mp4", 5);
    PlainType("application/octet-stream", 11);
  }

  lemma TableTypesAreTypes()
    ensures forall mime | mime in TABLE_TYPES :: IsType(mime)
    ensures IsType("application/octet-stream")
  {
    hide IsType;
    ImageTypesAreTypes();
    OtherTypesAreTypes();
  }

  /** Extracting a tree and rebuilding it keeps the media type of every data URL exactly if each of them is what comes
      back for the type that its payload has first in the tree. */
  lemma TypesRoundTripIff(w: World, st: Store, t: Tree, strict: bool)
    requires Sane(w) && Typed(w) && Consistent(st) && st.seen == map[]
    ensures var x := Extract(w, st, t);
            var r := Rebuild(w, x.store.files, strict, x.tree);
            r.Some? ==> (SameTypes(t, r.value) <==> AllReturn(w, t, t))
  {
    var x := Extract(w, st, t);
    ExtractSpec(w, st, t);
    forall p | p in x.store.seen ensures NamedAfter(w, x.store, p, FirstType(t, p)) {
      ExtractNames(w, st, t, p);
    }
    if Rebuild(w, x.store.files, strict, x.tree).Some? {
      RebuildTypes(w, x.store, strict, t, t, x.tree);
    }
  }

  // ---------------------------------------------------------------- the extractor

  class Extractor {
    const world: World
    var seen: map<seq<Byte>, string>
    var index: nat
    var files: map<string, seq<Byte>>

    ghost function View(): Store
      reads this
    {
      Store(seen, index, files)
    }

    constructor (world: World, startIndex: nat, files: map<string, seq<Byte>>)
      ensures this.world == world && View() == Store(map[], startIndex, files) && Consistent(View())
    {
      this.world, seen, index, this.files := world, map[], startIndex, files;
    }

    method EnsureFile(u: Url) returns (name: string)
      modifies this
      ensures name == NameFor(world, old(View()), u) && View() == Place(world, old(View()), u)
    {
      if u.payload in seen { return seen[u.payload]; }
      name := Padded(index) + Extension(world, u.mime);
      index := index + 1;
      seen := seen[u.payload := name];
      files := files[name := u.payload];
    }

    method Walk(t: Tree) returns (r: Tree)
      modifies this
      ensures Extracted(r, View()) == Extract(world, old(View()), t)
      decreases t
    {
      match t
      case Text(s) =>
        var u := Parse(s);
        if u.None? { return t; }
        var name := EnsureFile(u.value);
        r := Text(name);
      case Node(shape, children) =>
        var out := [];
        for i := 0 to |children|
          invariant (out, View()) == ExtractFirst(world, old(View()), t, i)
        {
          var child := Walk(children[i]);
          out := out + [child];
        }
        r := Node(shape, out);
      case Other(_) =>
        r := t;
    }
  }
}
