/** Keeping only the last images of a conversation. */
module TrimImages {
  import opened Options

  /** A block inside a tool result; `Malformed` is one that is not a dictionary, which the code does not expect. */
  datatype Sub = SubImage(n: nat) | SubPlain(n: nat) | Malformed

  /** A content block; `Tool` is any dictionary with a content list of its own. */
  datatype Block = Image(n: nat) | Plain(n: nat) | Tool(n: nat, subs: seq<Sub>)

  /** A message; a key that is absent or not a list is `None`, and `Other` is not a dictionary. */
  datatype Message =
    | Dict(n: nat, content: Option<seq<Block>>, input: Option<seq<Block>>, output: Option<seq<Block>>)
    | Other(n: nat)

  // ---------------------------------------------------------------- sweeping from the end with a budget

  type Keep<!T> = (int, T) -> (seq<T>, int)

  /** Processes the items from the last to the first, passing on how many images may still be kept. */
  function Sweep<T>(keep: Keep<T>, b: int, s: seq<T>): (seq<T>, int)
    decreases |s|
  {
    if s == [] then ([], b)
    else
      var last := keep(b, s[|s| - 1]);
      var front := Sweep(keep, last.1, s[..|s| - 1]);
      (front.0 + last.0, front.1)
  }

  function KeepSub(b: int, x: Sub): (seq<Sub>, int) {
    if !x.SubImage? then ([x], b) else if b > 0 then ([x], b - 1) else ([], b)
  }

  function KeepBlock(b: int, x: Block): (seq<Block>, int) {
    match x
    case Tool(n, subs) =>
      var r := Sweep(KeepSub, b, subs);
      ([Tool(n, r.0)], r.1)
    case Image(_) => if b > 0 then ([x], b - 1) else ([], b)
    case Plain(_) => ([x], b)
  }

  function KeepField(b: int, f: Option<seq<Block>>): (Option<seq<Block>>, int) {
    if f.None? then (f, b)
    else
      var r := Sweep(KeepBlock, b, f.value);
      (Some(r.0), r.1)
  }

  /** The lists of a message are processed in the order content, input, output. */
  function KeepMessage(b: int, m: Message): (seq<Message>, int) {
    match m
    case Dict(n, content, input, output) =>
      var c := KeepField(b, content);
      var i := KeepField(c.1, input);
      var o := KeepField(i.1, output);
      ([Dict(n, c.0, i.0, o.0)], o.1)
    case Other(_) => ([m], b)
  }

  function Trimmed(messages: seq<Message>, maxImages: int): seq<Message> {
    Sweep(KeepMessage, maxImages, messages).0
  }

  predicate WellFormedBlocks(blocks: seq<Block>) {
    forall i | 0 <= i < |blocks| && blocks[i].Tool? :: Malformed !in blocks[i].subs
  }

  predicate WellFormedField(f: Option<seq<Block>>) {
    f.Some? ==> WellFormedBlocks(f.value)
  }

  predicate WellFormedMessage(m: Message) {
    m.Dict? ==> WellFormedField(m.content) && WellFormedField(m.input) && WellFormedField(m.output)
  }

  predicate WellFormed(messages: seq<Message>) {
    forall i | 0 <= i < |messages| :: WellFormedMessage(messages[i])
  }

  // ---------------------------------------------------------------- sweeping twice

  function Min(a: int, b: int): int {
    if a <= b then a else b
  }

  lemma {:induction false} SweepConcat<T>(keep: Keep<T>, b: int, s: seq<T>, t: seq<T>)
    ensures var y := Sweep(keep, b, t);
            var x := Sweep(keep, y.1, s);
            Sweep(keep, b, s + t) == (x.0 + y.0, x.1)
    decreases |t|
  {
    if t == [] {
      assert s + t == s;
      assert Sweep(keep, b, s).0 + [] == Sweep(keep, b, s).0;
    } else {
      var last := keep(b, t[|t| - 1]);
      var front := t[..|t| - 1];
      SweepConcat(keep, last.1, s, front);
      assert (s + t)[..|s + t| - 1] == s + front && (s + t)[|s + t| - 1] == t[|t| - 1];
      var y := Sweep(keep, last.1, front);
      var x := Sweep(keep, y.1, s);
      assert (x.0 + y.0) + last.0 == x.0 + (y.0 + last.0);
    }
  }

  /** Keeping with one budget and then with another is keeping with the smaller one. */
  ghost predicate Composes<T>(keep: Keep<T>, j: int, k: int, x: T) {
    var y := keep(j, x);
    var z := Sweep(keep, k, y.0);
    keep(Min(j, k), x) == (z.0, Min(y.1, z.1))
  }

  lemma {:induction false} SweepTwice<T(!new)>(keep: Keep<T>, j: int, k: int, s: seq<T>)
    requires forall j, k, x :: Composes(keep, j, k, x)
    ensures var y := Sweep(keep, j, s);
            var z := Sweep(keep, k, y.0);
            Sweep(keep, Min(j, k), s) == (z.0, Min(y.1, z.1))
    decreases |s|
  {
    if s != [] {
      var x, front := s[|s| - 1], s[..|s| - 1];
      assert Composes(keep, j, k, x);
      var y := keep(j, x);
      var z := Sweep(keep, k, y.0);
      SweepTwice(keep, y.1, z.1, front);
      SweepConcat(keep, k, Sweep(keep, y.1, front).0, y.0);
    }
  }

  lemma SweepOne<T>(keep: Keep<T>, b: int, x: T)
    ensures Sweep(keep, b, [x]) == keep(b, x)
  {
    assert [x][..0] == [];
    assert Sweep(keep, keep(b, x).1, []) == ([], keep(b, x).1);
    assert [] + keep(b, x).0 == keep(b, x).0;
  }

  lemma SubComposes(j: int, k: int, x: Sub)
    ensures Composes(KeepSub, j, k, x)
  {
    SweepOne(KeepSub, k, x);
  }

  lemma SubsTwice(j: int, k: int, s: seq<Sub>)
    ensures var y := Sweep(KeepSub, j, s);
            var z := Sweep(KeepSub, k, y.0);
            Sweep(KeepSub, Min(j, k), s) == (z.0, Min(y.1, z.1))
  {
    forall j, k, x ensures Composes(KeepSub, j, k, x) { SubComposes(j, k, x); }
    SweepTwice(KeepSub, j, k, s);
  }

  lemma BlockComposes(j: int, k: int, x: Block)
    ensures Composes(KeepBlock, j, k, x)
  {
    var y := KeepBlock(j, x);
    if y.0 != [] { SweepOne(KeepBlock, k, y.0[0]); }
    if x.Tool? { SubsTwice(j, k, x.subs); }
  }

  lemma BlocksTwice(j: int, k: int, s: seq<Block>)
    ensures var y := Sweep(KeepBlock, j, s);
            var z := Sweep(KeepBlock, k, y.0);
            Sweep(KeepBlock, Min(j, k), s) == (z.0, Min(y.1, z.1))
  {
    forall j, k, x ensures Composes(KeepBlock, j, k, x) { BlockComposes(j, k, x); }
    SweepTwice(KeepBlock, j, k, s);
  }

  lemma FieldTwice(j: int, k: int, f: Option<seq<Block>>)
    ensures var y := KeepField(j, f);
            var z := KeepField(k, y.0);
            KeepField(Min(j, k), f) == (z.0, Min(y.1, z.1))
  {
    if f.Some? { BlocksTwice(j, k, f.value); }
  }

  lemma MessageComposes(j: int, k: int, m: Message)
    ensures Composes(KeepMessage, j, k, m)
  {
    var y := KeepMessage(j, m);
    SweepOne(KeepMessage, k, y.0[0]);
    if m.Dict? {
      var c := KeepField(j, m.content);
      var i := KeepField(c.1, m.input);
      var c', i' := KeepField(k, c.0), KeepField(KeepField(k, c.0).1, i.0);
      FieldTwice(j, k, m.content);
      FieldTwice(c.1, c'.1, m.input);
      FieldTwice(i.1, i'.1, m.output);
    }
  }

  /** Trimming to `j` and then to `k` is trimming to the smaller, for any messages. */
  lemma TrimTwice(messages: seq<Message>, j: int, k: int)
    ensures Trimmed(Trimmed(messages, j), k) == Trimmed(messages, Min(j, k))
  {
    forall j, k, m ensures Composes(KeepMessage, j, k, m) { MessageComposes(j, k, m); }
    SweepTwice(KeepMessage, j, k, messages);
  }

  // ---------------------------------------------------------------- the document as a flat text

  /** What a reader meets, in order: pictures, and everything else. */
  datatype Token = Picture(n: nat) | Rest(n: nat) | Odd | Begin(n: nat) | End

  function KeepToken(b: int, t: Token): (seq<Token>, int) {
    if !t.Picture? then ([t], b) else if b > 0 then ([t], b - 1) else ([], b)
  }

  function Flat<T>(tokens: T -> seq<Token>, s: seq<T>): seq<Token> {
    if s == [] then [] else Flat(tokens, s[..|s| - 1]) + tokens(s[|s| - 1])
  }

  function SubTokens(x: Sub): seq<Token> {
    match x
    case SubImage(n) => [Picture(n)]
    case SubPlain(n) => [Rest(n)]
    case Malformed => [Odd]
  }

  function BlockTokens(x: Block): seq<Token> {
    match x
    case Image(n) => [Picture(n)]
    case Plain(n) => [Rest(n)]
    case Tool(n, subs) => [Begin(n)] + Flat(SubTokens, subs) + [End]
  }

  function FieldTokens(f: Option<seq<Block>>): seq<Token> {
    if f.None? then [End] else [Begin(0)] + Flat(BlockTokens, f.value) + [End]
  }

  /** Reading order: a message with one list is read as it stands; of several lists, content counts as the last. */
  function MessageTokens(m: Message): seq<Token> {
    match m
    case Dict(n, content, input, output) =>
      [Begin(n)] + FieldTokens(output) + FieldTokens(input) + FieldTokens(content) + [End]
    case Other(n) => [Rest(n)]
  }

  function Text(messages: seq<Message>): seq<Token> {
    Flat(MessageTokens, messages)
  }

  /** Keeping an item keeps its text as the same sweep over the text would. */
  ghost predicate Commutes<T>(keep: Keep<T>, tokens: T -> seq<Token>, b: int, x: T) {
    var y := keep(b, x);
    Sweep(KeepToken, b, tokens(x)) == (Flat(tokens, y.0), y.1)
  }

  lemma {:induction false} FlatConcat<T>(tokens: T -> seq<Token>, s: seq<T>, t: seq<T>)
    ensures Flat(tokens, s + t) == Flat(tokens, s) + Flat(tokens, t)
    decreases |t|
  {
    if t == [] {
      assert s + t == s;
    } else {
      var front, last := t[..|t| - 1], t[|t| - 1];
      FlatConcat(tokens, s, front);
      assert (s + t)[..|s + t| - 1] == s + front && (s + t)[|s + t| - 1] == last;
      assert Flat(tokens, s + t) == Flat(tokens, s + front) + tokens(last);
      assert Flat(tokens, t) == Flat(tokens, front) + tokens(last);
      hide Flat;
    }
  }

  lemma FlatOne<T>(tokens: T -> seq<Token>, x: T)
    ensures Flat(tokens, []) == []
    ensures Flat(tokens, [x]) == tokens(x)
  {
    assert [x][..0] == [];
  }

  lemma {:induction false} SweepCommutes<T(!new)>(keep: Keep<T>, tokens: T -> seq<Token>, b: int, s: seq<T>)
    requires forall b, x :: Commutes(keep, tokens, b, x)
    ensures var y := Sweep(keep, b, s);
            Sweep(KeepToken, b, Flat(tokens, s)) == (Flat(tokens, y.0), y.1)
    decreases |s|
  {
    if s != [] {
      var x, front := s[|s| - 1], s[..|s| - 1];
      assert Commutes(keep, tokens, b, x);
      var last := keep(b, x);
      SweepConcat(KeepToken, b, Flat(tokens, front), tokens(x));
      SweepCommutes(keep, tokens, last.1, front);
      FlatConcat(tokens, Sweep(keep, last.1, front).0, last.0);
    }
  }

  /** Brackets around a text are kept and cost nothing. */
  lemma SweepBracketed(b: int, open: Token, s: seq<Token>, t: seq<Token>, b': int)
    requires Sweep(KeepToken, b, s) == (t, b') && !open.Picture?
    ensures Sweep(KeepToken, b, [open] + s + [End]) == ([open] + t + [End], b')
  {
    SweepConcat(KeepToken, b, [open] + s, [End]);
    SweepOne(KeepToken, b, End);
    SweepConcat(KeepToken, b, [open], s);
    SweepOne(KeepToken, b', open);
  }

  lemma SubCommutes(b: int, x: Sub)
    ensures Commutes(KeepSub, SubTokens, b, x)
  {
    SweepOne(KeepToken, b, SubTokens(x)[0]);
    FlatOne(SubTokens, x);
  }

  lemma BlockCommutes(b: int, x: Block)
    ensures Commutes(KeepBlock, BlockTokens, b, x)
  {
    if x.Tool? {
      ToolCommutes(b, x);
    } else {
      LeafCommutes(b, x);
    }
    hide *;
  }

  lemma LeafCommutes(b: int, x: Block)
    requires !x.Tool?
    ensures Commutes(KeepBlock, BlockTokens, b, x)
  {
    hide Sweep, Flat;
    var token := if x.Image? then Picture(x.n) else Rest(x.n);
    assert BlockTokens(x) == [token];
    SweepOne(KeepToken, b, token);
    FlatOne(BlockTokens, x);
  }

  lemma ToolCommutes(b: int, x: Block)
    requires x.Tool?
    ensures Commutes(KeepBlock, BlockTokens, b, x)
  {
    hide Sweep, Flat, KeepToken, KeepSub, SubTokens;
    forall b, x ensures Commutes(KeepSub, SubTokens, b, x) { SubCommutes(b, x); }
    SweepCommutes(KeepSub, SubTokens, b, x.subs);
    var r := Sweep(KeepSub, b, x.subs);
    SweepBracketed(b, Begin(x.n), Flat(SubTokens, x.subs), Flat(SubTokens, r.0), r.1);
    FlatOne(BlockTokens, Tool(x.n, r.0));
  }

  lemma FieldCommutes(b: int, f: Option<seq<Block>>)
    ensures var y := KeepField(b, f);
            Sweep(KeepToken, b, FieldTokens(f)) == (FieldTokens(y.0), y.1)
  {
    if f.Some? {
      forall b, x ensures Commutes(KeepBlock, BlockTokens, b, x) { BlockCommutes(b, x); }
      SweepCommutes(KeepBlock, BlockTokens, b, f.value);
      var r := Sweep(KeepBlock, b, f.value);
      SweepBracketed(b, Begin(0), Flat(BlockTokens, f.value), Flat(BlockTokens, r.0), r.1);
    } else {
      SweepOne(KeepToken, b, End);
    }
  }

  /** Three texts one after the other. */
  lemma SweepThree(b: int, s: seq<Token>, t: seq<Token>, u: seq<Token>)
    ensures var z := Sweep(KeepToken, b, u);
            var y := Sweep(KeepToken, z.1, t);
            var x := Sweep(KeepToken, y.1, s);
            Sweep(KeepToken, b, s + t + u) == (x.0 + y.0 + z.0, x.1)
  {
    SweepConcat(KeepToken, b, s + t, u);
    SweepConcat(KeepToken, Sweep(KeepToken, b, u).1, s, t);
  }

  lemma MessageTokensAre(m: Message)
    requires m.Dict?
    ensures MessageTokens(m) ==
            [Begin(m.n)] + (FieldTokens(m.output) + FieldTokens(m.input) + FieldTokens(m.content)) + [End]
  {
    hide FieldTokens;
  }

  lemma MessageCommutes(b: int, m: Message)
    ensures Commutes(KeepMessage, MessageTokens, b, m)
  {
    if m.Dict? {
      var c := KeepField(b, m.content);
      var i := KeepField(c.1, m.input);
      var o := KeepField(i.1, m.output);
      var m' := Dict(m.n, c.0, i.0, o.0);
      assert KeepMessage(b, m) == ([m'], o.1);
      hide KeepField, FieldTokens, Sweep, MessageTokens;
      FieldCommutes(b, m.content);
      FieldCommutes(c.1, m.input);
      FieldCommutes(i.1, m.output);
      SweepThree(b, FieldTokens(m.output), FieldTokens(m.input), FieldTokens(m.content));
      var all := FieldTokens(m.output) + FieldTokens(m.input) + FieldTokens(m.content);
      var all' := FieldTokens(o.0) + FieldTokens(i.0) + FieldTokens(c.0);
      SweepBracketed(b, Begin(m.n), all, all', o.1);
      MessageTokensAre(m);
      MessageTokensAre(m');
      FlatOne(MessageTokens, m');
    } else {
      SweepOne(KeepToken, b, Rest(m.n));
      FlatOne(MessageTokens, m);
    }
  }

  // ---------------------------------------------------------------- what is left of a text

  function Pictures(s: seq<Token>): seq<Token> {
    if s == [] then [] else Pictures(s[..|s| - 1]) + if s[|s| - 1].Picture? then [s[|s| - 1]] else []
  }

  /** The text without the pictures that have `b` or more pictures after them. */
  function WithoutEarly(s: seq<Token>, b: int): seq<Token> {
    if s == [] then []
    else (if s[0].Picture? && |Pictures(s[1..])| >= b then [] else [s[0]]) + WithoutEarly(s[1..], b)
  }

  lemma {:induction false} PicturesConcat(s: seq<Token>, t: seq<Token>)
    ensures Pictures(s + t) == Pictures(s) + Pictures(t)
    decreases |t|
  {
    if t == [] {
      assert s + t == s;
    } else {
      PicturesConcat(s, t[..|t| - 1]);
      assert (s + t)[..|s + t| - 1] == s + t[..|t| - 1];
    }
  }

  lemma PicturesFront(s: seq<Token>)
    requires s != []
    ensures Pictures(s) == (if s[0].Picture? then [s[0]] else []) + Pictures(s[1..])
  {
    assert s == [s[0]] + s[1..];
    PicturesConcat([s[0]], s[1..]);
    assert [s[0]][..0] == [];
  }

  function Max(a: int, b: int): int {
    if a >= b then a else b
  }

  lemma {:induction false} SweepIsWithoutEarly(s: seq<Token>, b: int)
    ensures Sweep(KeepToken, b, s).0 == WithoutEarly(s, b)
    ensures Sweep(KeepToken, b, s).1 == Min(b, Max(0, b - |Pictures(s)|))
    decreases |s|
  {
    if s != [] {
      SweepIsWithoutEarly(s[1..], b);
      SweepConcat(KeepToken, b, [s[0]], s[1..]);
      assert [s[0]] + s[1..] == s;
      SweepOne(KeepToken, Sweep(KeepToken, b, s[1..]).1, s[0]);
      PicturesFront(s);
    }
  }

  /** Trimming removes from the text exactly the pictures with `maxImages` or more pictures after them, and keeps
      everything else where it is, tool results included. */
  lemma TrimText(messages: seq<Message>, maxImages: int)
    ensures Text(Trimmed(messages, maxImages)) == WithoutEarly(Text(messages), maxImages)
  {
    forall b, m ensures Commutes(KeepMessage, MessageTokens, b, m) { MessageCommutes(b, m); }
    SweepCommutes(KeepMessage, MessageTokens, maxImages, messages);
    SweepIsWithoutEarly(Text(messages), maxImages);
  }

  /** The last `b` elements, or all of them. */
  function Last(s: seq<Token>, b: int): seq<Token> {
    if b <= 0 then [] else if b >= |s| then s else s[|s| - b..]
  }

  lemma {:induction false} WithoutEarlyKeepsLast(s: seq<Token>, b: int)
    ensures Pictures(WithoutEarly(s, b)) == Last(Pictures(s), b)
    decreases |s|
  {
    if s != [] {
      WithoutEarlyKeepsLast(s[1..], b);
      var later := Pictures(s[1..]);
      var first := if s[0].Picture? && |later| >= b then [] else [s[0]];
      assert WithoutEarly(s, b) == first + WithoutEarly(s[1..], b);
      PicturesFront(s);
      PicturesOne(s[0]);
      hide WithoutEarly, Pictures, Last;
      PicturesConcat(first, WithoutEarly(s[1..], b));
      LastCons(s[0], later, b);
      assert s[0].Picture? || Pictures([s[0]]) + Last(later, b) == Last(later, b);
      assert [] + later == later && [] + Last(later, b) == Last(later, b);
    }
  }

  lemma LastCons(x: Token, s: seq<Token>, b: int)
    ensures Last([x] + s, b) == if |s| >= b then Last(s, b) else [x] + Last(s, b)
  {}

  lemma PicturesOne(x: Token)
    ensures Pictures([]) == [] && Pictures([x]) == if x.Picture? then [x] else []
  {
    assert [x][..0] == [];
  }

  /** The pictures that remain are the last `maxImages`, in their order. */
  lemma TrimKeepsLastPictures(messages: seq<Message>, maxImages: int)
    ensures Pictures(Text(Trimmed(messages, maxImages))) == Last(Pictures(Text(messages)), maxImages)
  {
    TrimText(messages, maxImages);
    WithoutEarlyKeepsLast(Text(messages), maxImages);
  }

  // ---------------------------------------------------------------- the loops

  function Reversed<T>(s: seq<T>): seq<T> {
    if s == [] then [] else [s[|s| - 1]] + Reversed(s[..|s| - 1])
  }

  lemma ReversedPush<T>(s: seq<T>, x: T)
    ensures Reversed(s + [x]) == [x] + Reversed(s)
  {
    assert (s + [x])[..|s|] == s;
  }

  /** The sweep of `s` is the sweep of its first `i` items followed by what was kept of the others. */
  ghost predicate Done<T>(keep: Keep<T>, b: int, s: seq<T>, i: nat, left: int, kept: seq<T>)
    requires i <= |s|
  {
    var front := Sweep(keep, left, s[..i]);
    Sweep(keep, b, s) == (front.0 + Reversed(kept), front.1)
  }

  lemma DoneStart<T>(keep: Keep<T>, b: int, s: seq<T>)
    ensures Done(keep, b, s, |s|, b, [])
  {
    assert s[..|s|] == s;
    assert Sweep(keep, b, s).0 + [] == Sweep(keep, b, s).0;
  }

  lemma DoneEnd<T>(keep: Keep<T>, b: int, s: seq<T>, left: int, kept: seq<T>)
    requires Done(keep, b, s, 0, left, kept)
    ensures Sweep(keep, b, s) == (Reversed(kept), left)
  {
    assert s[..0] == [];
    assert Sweep(keep, left, []) == ([], left);
    assert [] + Reversed(kept) == Reversed(kept);
  }

  lemma DoneStep<T>(keep: Keep<T>, b: int, s: seq<T>, i: nat, left: int, kept: seq<T>, kept': seq<T>)
    requires 0 < i <= |s| && Done(keep, b, s, i, left, kept)
    requires Reversed(kept') == keep(left, s[i - 1]).0 + Reversed(kept)
    ensures Done(keep, b, s, i - 1, keep(left, s[i - 1]).1, kept')
  {
    var one := keep(left, s[i - 1]);
    var front := Sweep(keep, one.1, s[..i - 1]);
    assert s[..i][..i - 1] == s[..i - 1] && s[..i][i - 1] == s[i - 1];
    assert Sweep(keep, left, s[..i]) == (front.0 + one.0, front.1);
    assert front.0 + one.0 + Reversed(kept) == front.0 + (one.0 + Reversed(kept));
  }

  /** The blocks of a tool result, from the last to the first. */
  method TrimSubs(subs: seq<Sub>, left: int) returns (r: Option<seq<Sub>>, left': int)
    ensures r.None? <==> Malformed in subs
    ensures r.Some? ==> (r.value, left') == Sweep(KeepSub, left, subs)
  {
    var kept, i := [], |subs|;
    left' := left;
    DoneStart(KeepSub, left, subs);
    hide Done, Sweep, Reversed;
    while i > 0
      invariant 0 <= i <= |subs| && Malformed !in subs[i..]
      invariant Done(KeepSub, left, subs, i, left', kept)
    {
      var x := subs[i - 1];
      if x.Malformed? { return None, left'; }
      ghost var before, had := left', kept;
      if x.SubImage? {
        if left' > 0 {
          left' := left' - 1;
          kept := kept + [x];
        }
      } else {
        kept := kept + [x];
      }
      ReversedPush(had, x);
      DoneStep(KeepSub, left, subs, i, before, had, kept);
      i := i - 1;
    }
    DoneEnd(KeepSub, left, subs, left', kept);
    r := Some(Reversed(kept));
  }

  /** The blocks of one list, from the last to the first. */
  method TrimBlocks(blocks: seq<Block>, left: int) returns (r: Option<seq<Block>>, left': int)
    ensures r.None? <==> !WellFormedBlocks(blocks)
    ensures r.Some? ==> (r.value, left') == Sweep(KeepBlock, left, blocks)
  {
    var kept, i := [], |blocks|;
    left' := left;
    DoneStart(KeepBlock, left, blocks);
    hide Done, Sweep, Reversed;
    while i > 0
      invariant 0 <= i <= |blocks| && WellFormedBlocks(blocks[i..])
      invariant Done(KeepBlock, left, blocks, i, left', kept)
    {
      var x := blocks[i - 1];
      ghost var before, had := left', kept;
      match x {
        case Tool(n, subs) =>
          var inner;
          inner, left' := TrimSubs(subs, left');
          if inner.None? { return None, left'; }
          kept := kept + [Tool(n, inner.value)];
          ReversedPush(had, Tool(n, inner.value));
        case Image(_) =>
          if left' > 0 {
            left' := left' - 1;
            kept := kept + [x];
            ReversedPush(had, x);
          }
        case Plain(_) =>
          kept := kept + [x];
          ReversedPush(had, x);
      }
      DoneStep(KeepBlock, left, blocks, i, before, had, kept);
      assert blocks[i - 1..] == [x] + blocks[i..];
      i := i - 1;
    }
    DoneEnd(KeepBlock, left, blocks, left', kept);
    r := Some(Reversed(kept));
  }

  method TrimField(f: Option<seq<Block>>, left: int) returns (ok: bool, r: Option<seq<Block>>, left': int)
    ensures ok <==> WellFormedField(f)
    ensures ok ==> (r, left') == KeepField(left, f)
  {
    if f.None? { return true, f, left; }
    r, left' := TrimBlocks(f.value, left);
    ok := r.Some?;
  }

  /** `trim_images`: an error exactly when a tool result holds something that is not a dictionary. */
  method Trim(messages: seq<Message>, maxImages: int) returns (r: Option<seq<Message>>)
    ensures r.None? <==> !WellFormed(messages)
    ensures r.Some? ==> r.value == Trimmed(messages, maxImages)
  {
    var kept, i, left := [], |messages|, maxImages;
    DoneStart(KeepMessage, maxImages, messages);
    hide Done, Sweep, Reversed;
    while i > 0
      invariant 0 <= i <= |messages| && WellFormed(messages[i..])
      invariant Done(KeepMessage, maxImages, messages, i, left, kept)
    {
      var m := messages[i - 1];
      ghost var before, had := left, kept;
      assert messages[i - 1..] == [m] + messages[i..];
      if m.Dict? {
        var ok, content, input, output;
        ok, content, left := TrimField(m.content, left);
        if !ok { return None; }
        ok, input, left := TrimField(m.input, left);
        if !ok { return None; }
        ok, output, left := TrimField(m.output, left);
        if !ok { return None; }
        m := Dict(m.n, content, input, output);
      }
      kept := kept + [m];
      ReversedPush(had, m);
      DoneStep(KeepMessage, maxImages, messages, i, before, had, kept);
      i := i - 1;
    }
    DoneEnd(KeepMessage, maxImages, messages, left, kept);
    r := Some(Reversed(kept));
  }
}
