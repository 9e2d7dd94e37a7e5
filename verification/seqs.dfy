/** The sequence and string operations the Swift code borrows from the
    standard library: `components(separatedBy:)`, `split(separator:)`,
    `replacingOccurrences(of:with:)` and substring search. Each is defined
    once here, generically, with its partner (join, flatten) and the lemmas
    that connect them. */
module Seqs {

  /** Index of the first occurrence of `x` in `s`. */
  function IndexOf<T(==)>(s: seq<T>, x: T): (i: nat)
    requires x in s
    ensures i < |s| && s[i] == x
    ensures x !in s[..i]
  {
    if s[0] == x then 0 else 1 + IndexOf(s[1..], x)
  }

  /** Glue the pieces back together with one separator between neighbours. */
  function Join<T>(parts: seq<seq<T>>, sep: T): seq<T>
    requires |parts| >= 1
  {
    if |parts| == 1 then parts[0] else parts[0] + [sep] + Join(parts[1..], sep)
  }

  /** Swift's `components(separatedBy:)`: every separator cuts, empty pieces
      are kept, and a string without separator is one piece. */
  function Split<T(==)>(s: seq<T>, sep: T): (parts: seq<seq<T>>)
    ensures |parts| >= 1
    ensures forall i :: 0 <= i < |parts| ==> sep !in parts[i]
    ensures Join(parts, sep) == s
    ensures |parts| == 1 <==> sep !in s
    decreases |s|
  {
    if sep !in s then [s]
    else
      var i := IndexOf(s, sep);
      var rest := Split(s[i + 1..], sep);
      var parts := [s[..i]] + rest;
      assert parts[1..] == rest;
      assert s == s[..i] + [sep] + s[i + 1..];
      parts
  }

  /** Concatenation of all pieces. */
  function Flatten<T>(parts: seq<seq<T>>): seq<T>
  {
    if |parts| == 0 then [] else parts[0] + Flatten(parts[1..])
  }

  /** Drops the empty pieces, keeping the others in order. */
  function DropEmpty<T>(parts: seq<seq<T>>): (r: seq<seq<T>>)
    ensures forall i :: 0 <= i < |r| ==> |r[i]| > 0
    ensures forall p :: p in r ==> p in parts
  {
    if |parts| == 0 then []
    else if |parts[0]| == 0 then DropEmpty(parts[1..])
    else [parts[0]] + DropEmpty(parts[1..])
  }

  /** Swift's `split(separator:)` with its defaults (no split limit, empty
      subsequences omitted). */
  function SplitOmittingEmpty<T(==)>(s: seq<T>, sep: T): (parts: seq<seq<T>>)
    ensures forall i :: 0 <= i < |parts| ==> |parts[i]| > 0 && sep !in parts[i]
  {
    var pieces := Split(s, sep);
    assert forall p :: p in pieces ==> sep !in p;
    DropEmpty(pieces)
  }

  /** Every occurrence of `x` deleted, the rest kept in order. */
  function RemoveAll<T(==)>(s: seq<T>, x: T): (r: seq<T>)
    ensures x !in r
    ensures x !in s ==> r == s
    ensures multiset(r) == multiset(s)[x := 0]
  {
    if |s| == 0 then []
    else
      assert s == [s[0]] + s[1..];
      if s[0] == x then RemoveAll(s[1..], x) else [s[0]] + RemoveAll(s[1..], x)
  }

  lemma FlattenAppend<T>(a: seq<seq<T>>, b: seq<seq<T>>)
    ensures Flatten(a + b) == Flatten(a) + Flatten(b)
  {
    if |a| == 0 {
      assert a + b == b;
    } else {
      assert (a + b)[1..] == a[1..] + b;
      FlattenAppend(a[1..], b);
    }
  }

  lemma FlattenCons<T>(a: seq<T>, rest: seq<seq<T>>)
    ensures Flatten([a] + rest) == a + Flatten(rest)
  {
    assert ([a] + rest)[1..] == rest;
  }

  lemma AppendAssoc<T>(a: seq<T>, b: seq<T>, c: seq<T>)
    ensures a + (b + c) == (a + b) + c
  {
  }

  /** Dropping a prefix of the front part of a concatenation. */
  lemma DropFromAppend<T>(a: seq<T>, b: seq<T>, k: nat)
    requires k <= |a|
    ensures (a + b)[k..] == a[k..] + b
  {
  }

  lemma RemoveAllAppend<T>(a: seq<T>, b: seq<T>, x: T)
    ensures RemoveAll(a + b, x) == RemoveAll(a, x) + RemoveAll(b, x)
  {
    if |a| == 0 {
      assert a + b == b;
    } else {
      assert (a + b)[1..] == a[1..] + b;
      RemoveAllAppend(a[1..], b, x);
    }
  }

  lemma {:induction false} FlattenDropEmpty<T>(parts: seq<seq<T>>)
    ensures Flatten(DropEmpty(parts)) == Flatten(parts)
  {
    if |parts| > 0 {
      FlattenDropEmpty(parts[1..]);
      if |parts[0]| > 0 {
        assert ([parts[0]] + DropEmpty(parts[1..]))[1..] == DropEmpty(parts[1..]);
      }
    }
  }

  /** Cutting at every separator and gluing the pieces back without the
      separators is the same as deleting the separators. */
  lemma {:induction false} FlattenSplit<T>(s: seq<T>, sep: T)
    ensures Flatten(Split(s, sep)) == RemoveAll(s, sep)
    decreases |s|
  {
    if sep !in s {
      assert Split(s, sep) == [s];
      assert Flatten([s]) == s + Flatten([s][1..]);
    } else {
      var i := IndexOf(s, sep);
      var head, tail := s[..i], s[i + 1..];
      SplitUnfold(s, sep);
      FlattenCons(head, Split(tail, sep));
      FlattenSplit(tail, sep);
      RemoveAllAroundSeparator(head, tail, sep);
      assert s == head + [sep] + tail;
    }
  }

  lemma SplitUnfold<T>(s: seq<T>, sep: T)
    requires sep in s
    ensures Split(s, sep) == [s[..IndexOf(s, sep)]] + Split(s[IndexOf(s, sep) + 1..], sep)
  {
  }

  lemma {:induction false} RemoveAllAroundSeparator<T>(head: seq<T>, tail: seq<T>, sep: T)
    requires sep !in head
    ensures RemoveAll(head + [sep] + tail, sep) == head + RemoveAll(tail, sep)
    decreases |head|
  {
    var s := head + [sep] + tail;
    if |head| == 0 {
      assert s[0] == sep && s[1..] == tail;
    } else {
      var s1 := head[1..] + [sep] + tail;
      assert s[0] == head[0] && s[1..] == s1;
      assert head[0] != sep && sep !in head[1..] by {
        assert head[0] in head;
        assert forall x :: x in head[1..] ==> x in head;
      }
      RemoveAllAroundSeparator(head[1..], tail, sep);
      calc {
        RemoveAll(s, sep);
        [head[0]] + RemoveAll(s1, sep);
        [head[0]] + (head[1..] + RemoveAll(tail, sep));
        { AppendAssoc([head[0]], head[1..], RemoveAll(tail, sep)); }
        ([head[0]] + head[1..]) + RemoveAll(tail, sep);
        { assert [head[0]] + head[1..] == head; }
        head + RemoveAll(tail, sep);
      }
    }
  }

  /** `split(separator:)` loses nothing but the separators: the pieces,
      concatenated, are the input with every separator deleted. */
  lemma SplitOmittingEmptyKeepsContent<T>(s: seq<T>, sep: T)
    ensures Flatten(SplitOmittingEmpty(s, sep)) == RemoveAll(s, sep)
  {
    FlattenDropEmpty(Split(s, sep));
    FlattenSplit(s, sep);
  }

  /** Substring search (`contains(substring:)`). */
  predicate Contains<T(==)>(s: seq<T>, sub: seq<T>)
  {
    exists i :: 0 <= i <= |s| - |sub| && OccursAt(s, sub, i)
  }

  /** `sub` sits in `s` starting at index `i`. */
  predicate OccursAt<T(==)>(s: seq<T>, sub: seq<T>, i: int)
  {
    0 <= i <= |s| - |sub| && s[i..i + |sub|] == sub
  }

  /** The last piece of `Split` is the suffix after the last separator, and
      the string is the join of all but the last piece, a separator, then
      the last piece. */
  lemma {:induction false} JoinLast<T>(parts: seq<seq<T>>, sep: T)
    requires |parts| >= 2
    ensures Join(parts, sep) == Join(parts[..|parts| - 1], sep) + [sep] + parts[|parts| - 1]
  {
    if |parts| == 2 {
      assert parts[..1] == [parts[0]];
    } else {
      JoinLast(parts[1..], sep);
      assert parts[1..][..|parts| - 2] == parts[..|parts| - 1][1..];
    }
  }
}
