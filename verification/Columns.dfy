/** Tables as sequences of columns, each a header followed by its cells, and what moving, merging and
    inserting columns does to them. */
module Columns {
  import opened Wrappers

  type Column = c: seq<string> | c != [] witness [""]

  type Table = seq<Column>

  function Headers(t: Table): (hs: seq<string>)
    ensures |hs| == |t|
  {
    seq(|t|, i requires 0 <= i < |t| => t[i][0])
  }

  /** `headers.index(header)`. */
  function Index<T(==)>(hs: seq<T>, h: T): (i: nat)
    requires h in hs
    ensures i < |hs| && hs[i] == h && h !in hs[..i]
  {
    if hs[0] == h then 0
    else
      var i := Index(hs[1..], h) + 1;
      assert hs[..i] == [hs[0]] + hs[1..][..i - 1];
      i
  }

  lemma IndexOf<T>(hs: seq<T>, i: nat)
    requires Distinct(hs) && i < |hs|
    ensures Index(hs, hs[i]) == i
  {
  }

  /** Takes the element at `source` out and puts it back before what was at `target`. */
  function Move<T>(s: seq<T>, source: nat, target: nat): (r: seq<T>)
    requires source < |s| && target <= |s|
    ensures |r| == |s|
  {
    var rest := s[..source] + s[source + 1..];
    var at := if source < target then target - 1 else target;
    rest[..at] + [s[source]] + rest[at..]
  }

  lemma MovePermutes<T>(s: seq<T>, source: nat, target: nat)
    requires source < |s| && target <= |s|
    ensures multiset(Move(s, source, target)) == multiset(s)
  {
    var rest := s[..source] + s[source + 1..];
    var at := if source < target then target - 1 else target;
    assert s == s[..source] + [s[source]] + s[source + 1..];
    assert rest == rest[..at] + rest[at..];
    calc {
      multiset(s);
      multiset(s[..source]) + multiset([s[source]]) + multiset(s[source + 1..]);
      multiset(rest) + multiset([s[source]]);
      multiset(rest[..at]) + multiset(rest[at..]) + multiset([s[source]]);
      multiset(Move(s, source, target));
    }
  }

  lemma MoveHeaders(t: Table, source: nat, target: nat)
    requires source < |t| && target <= |t|
    ensures Headers(Move(t, source, target)) == Move(Headers(t), source, target)
  {
    var hs, rest := Headers(t), t[..source] + t[source + 1..];
    var at := if source < target then target - 1 else target;
    assert Headers(rest) == hs[..source] + hs[source + 1..];
    assert Headers(rest)[..at] == Headers(rest[..at]) && Headers(rest)[at..] == Headers(rest[at..]);
  }

  /** Where an element lands, and where the others land. */
  function Landing(n: nat, source: nat, target: nat, i: nat): (j: nat)
    requires source < n && target <= n && i < n
    ensures j < n
  {
    var at := if source < target then target - 1 else target;
    if i == source then at
    else
      var k := if i < source then i else i - 1;
      if k < at then k else k + 1
  }

  lemma MoveLands<T>(s: seq<T>, source: nat, target: nat, i: nat)
    requires source < |s| && target <= |s| && i < |s|
    ensures Move(s, source, target)[Landing(|s|, source, target, i)] == s[i]
  {
  }

  lemma MoveDistinct(hs: seq<string>, source: nat, target: nat)
    requires Distinct(hs) && source < |hs| && target <= |hs|
    ensures Distinct(Move(hs, source, target))
  {
  }

  lemma MoveMembers(hs: seq<string>, source: nat, target: nat)
    requires source < |hs| && target <= |hs|
    ensures forall h :: h in Move(hs, source, target) <==> h in hs
  {
    MovePermutes(hs, source, target);
    forall h ensures h in Move(hs, source, target) <==> h in hs {
      assert h in hs <==> h in multiset(hs);
      assert h in Move(hs, source, target) <==> h in multiset(Move(hs, source, target));
    }
  }

  lemma MoveIndex(hs: seq<string>, source: nat, target: nat, i: nat)
    requires Distinct(hs) && source < |hs| && target <= |hs| && i < |hs|
    ensures hs[i] in Move(hs, source, target)
    ensures Index(Move(hs, source, target), hs[i]) == Landing(|hs|, source, target, i)
  {
    hide Move, Landing, Index;
    MoveDistinct(hs, source, target);
    MoveLands(hs, source, target, i);
    IndexOf(Move(hs, source, target), Landing(|hs|, source, target, i));
  }

  /** The column under a header. */
  function Under(t: Table, h: string): Column
    requires h in Headers(t)
  {
    t[Index(Headers(t), h)]
  }

  /** The two tables hold the same columns under the same headers. */
  ghost predicate SameColumns(t: Table, u: Table)
  {
    && (forall h :: h in Headers(t) <==> h in Headers(u))
    && (forall h :: h in Headers(t) ==> Under(u, h) == Under(t, h))
  }

  /** Moving a column loses and changes no value of any row under any header. */
  lemma MoveKeepsColumns(t: Table, source: nat, target: nat)
    requires Distinct(Headers(t)) && source < |t| && target <= |t|
    ensures SameColumns(t, Move(t, source, target))
    ensures Distinct(Headers(Move(t, source, target)))
  {
    var u, hs := Move(t, source, target), Headers(t);
    MoveHeaders(t, source, target);
    MoveDistinct(hs, source, target);
    MoveMembers(hs, source, target);
    forall h | h in hs ensures Under(u, h) == Under(t, h) {
      hide Move;
      MoveIndex(hs, source, target, Index(hs, h));
      MoveLands(t, source, target, Index(hs, h));
    }
  }

  /** `b` stands right after `a`. */
  ghost predicate Follows(hs: seq<string>, a: string, b: string)
  {
    a in hs && b in hs && Index(hs, b) == Index(hs, a) + 1
  }

  /** Moving a column behind another puts it there. */
  lemma MovedFollows(hs: seq<string>, a: string, x: string)
    requires Distinct(hs) && a in hs && x in hs && a != x
    ensures Follows(Move(hs, Index(hs, x), Index(hs, a) + 1), a, x)
  {
    hide Move, Index, Distinct;
    MoveIndex(hs, Index(hs, x), Index(hs, a) + 1, Index(hs, x));
    MoveIndex(hs, Index(hs, x), Index(hs, a) + 1, Index(hs, a));
  }

  /** It parts no other pair, unless the pair starts where it goes. */
  lemma MoveParts(hs: seq<string>, a: string, x: string, p: string, q: string)
    requires Distinct(hs) && a in hs && x in hs && a != x
    requires Follows(hs, p, q) && x != p && x != q && p != a
    ensures Follows(Move(hs, Index(hs, x), Index(hs, a) + 1), p, q)
  {
    hide Move, Index, Distinct;
    MoveIndex(hs, Index(hs, x), Index(hs, a) + 1, Index(hs, p));
    MoveIndex(hs, Index(hs, x), Index(hs, a) + 1, Index(hs, q));
  }
}
