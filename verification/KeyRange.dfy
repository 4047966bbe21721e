/** Byte-string keys in lexicographic order, and the key range that stands for a prefix. */
module KeyRange {
  import opened Options

  type Byte = b: nat | b < 256
  type Key = seq<Byte>

  predicate Less(a: Key, b: Key) {
    b != [] && (a == [] || a[0] < b[0] || (a[0] == b[0] && Less(a[1..], b[1..])))
  }

  /** The keys etcd puts in the range from `key` to `end`; a single zero byte as `end` means no upper bound. */
  predicate InRange(k: Key, key: Key, end: Key) {
    !Less(k, key) && (end == [0] || Less(k, end))
  }

  /** The least key above every key that starts with `p`, if there is one. */
  function Successor(p: Key): Option<Key> {
    if p == [] then None
    else
      match Successor(p[1..])
      case Some(e) => Some([p[0]] + e)
      case None => if p[0] < 255 then Some([p[0] + 1]) else None
  }

  predicate HasPrefix(k: Key, p: Key) {
    p <= k
  }

  lemma {:induction false} SuccessorBounds(p: Key, k: Key)
    ensures !Less(k, p) && (Successor(p).None? || Less(k, Successor(p).value)) <==> HasPrefix(k, p)
  {
    if p != [] {
      if k != [] {
        SuccessorBounds(p[1..], k[1..]);
        if Successor(p[1..]).Some? {
          assert ([p[0]] + Successor(p[1..]).value)[1..] == Successor(p[1..]).value;
        }
      }
    }
  }

  /** What scanning from the back finds is the successor. */
  lemma {:induction false} SuccessorFromBack(p: Key, i: nat)
    requires i < |p| && p[i] != 255 && forall j | i < j < |p| :: p[j] == 255
    ensures Successor(p) == Some(p[..i] + [p[i] + 1])
  {
    if i == 0 {
      AllOnes(p[1..]);
      assert p[..0] + [p[0] + 1] == [p[0] + 1];
    } else {
      SuccessorFromBack(p[1..], i - 1);
      assert [p[0]] + (p[1..][..i - 1] + [p[i] + 1]) == p[..i] + [p[i] + 1];
    }
  }

  lemma {:induction false} AllOnes(p: Key)
    requires forall j | 0 <= j < |p| :: p[j] == 255
    ensures Successor(p) == None
  {
    if p != [] {
      AllOnes(p[1..]);
    }
  }

  /** `_range_end`. */
  method RangeEnd(prefix: Key) returns (end: Key)
    ensures forall k :: InRange(k, prefix, end) <==> HasPrefix(k, prefix)
    ensures end == RangeEndOf(prefix)
  {
    if prefix == [] {
      end := [0];
    } else {
      var buf := new Byte[|prefix|](i requires 0 <= i < |prefix| => prefix[i]);
      end := [0];
      var i := buf.Length;
      var found := false;
      while i > 0 && !found
        invariant 0 <= i <= buf.Length == |prefix|
        invariant !found ==> buf[..] == prefix && end == [0] && forall j | i <= j < |prefix| :: prefix[j] == 255
        invariant found ==> i < |prefix| && prefix[i] != 255 && (forall j | i < j < |prefix| :: prefix[j] == 255)
                            && end == prefix[..i] + [prefix[i] + 1]
        decreases i, !found
      {
        i := i - 1;
        if buf[i] != 255 {
          assert buf[..i] == prefix[..i];
          buf[i] := buf[i] + 1;
          end := buf[..i + 1];
          assert end == prefix[..i] + [prefix[i] + 1];
          found := true;
        }
      }
      if found {
        SuccessorFromBack(prefix, i);
      } else {
        AllOnes(prefix);
      }
    }
    forall k ensures InRange(k, prefix, end) <==> HasPrefix(k, prefix) {
      RangeIsPrefix(prefix, k);
    }
  }

  function RangeEndOf(prefix: Key): Key {
    match Successor(prefix)
    case Some(e) => e
    case None => [0]
  }

  /** The range from a prefix to its range end holds exactly the keys with that prefix, also for the
      empty prefix and for prefixes of 0xFF bytes only. */
  lemma RangeIsPrefix(prefix: Key, k: Key)
    ensures InRange(k, prefix, RangeEndOf(prefix)) <==> HasPrefix(k, prefix)
  {
    SuccessorBounds(prefix, k);
    if Successor(prefix).Some? {
    }
  }
}
