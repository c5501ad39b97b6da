/** Pages of an ordered query.  ORDER BY fixes the order of rows with different keys only, so the
    database may list tied rows differently each time it is asked. */
module Paging {
  import opened Options

  datatype SortOrder = ASC | DESC

  /** A row with key `a` may stand before a row with key `b`; NULLs come last. */
  predicate MayPrecede(o: SortOrder, a: Option<int>, b: Option<int>) {
    b.None? || (a.Some? && if o.ASC? then a.value <= b.value else b.value <= a.value)
  }

  ghost predicate Ordered<T(!new)>(o: SortOrder, key: T -> Option<int>, l: seq<T>) {
    forall i, j :: 0 <= i < j < |l| ==> MayPrecede(o, key(l[i]), key(l[j]))
  }

  /** `l` is an answer the database may give for `rows` under this ordering. */
  ghost predicate Listing<T(!new)>(o: SortOrder, key: T -> Option<int>, rows: seq<T>, l: seq<T>) {
    multiset(l) == multiset(rows) && Ordered(o, key, l)
  }

  ghost predicate Distinct<T>(l: seq<T>) {
    forall i, j :: 0 <= i < j < |l| ==> l[i] != l[j]
  }

  /** min(limit, max(0, total - offset)). */
  function PageSize(total: nat, offset: nat, limit: nat): nat {
    if offset >= total then 0 else if total - offset < limit then total - offset else limit
  }

  /** OFFSET and LIMIT. */
  function Page<T>(l: seq<T>, offset: nat, limit: nat): (p: seq<T>)
    ensures |p| == PageSize(|l|, offset, limit)
    ensures forall i :: 0 <= i < |p| ==> p[i] == l[offset + i]
  {
    if offset >= |l| then [] else if |l| - offset < limit then l[offset..] else l[offset..offset + limit]
  }

  /** The offset of page `k`: 0, `limit`, twice `limit` and so on. */
  function Start(k: nat, limit: nat): nat {
    if k == 0 then 0 else Start(k - 1, limit) + limit
  }

  lemma {:induction false} StartsInOrder(j: nat, k: nat, limit: nat)
    requires j < k
    ensures Start(j, limit) + limit <= Start(k, limit)
    decreases k
  {
    if j < k - 1 { StartsInOrder(j, k - 1, limit); }
  }

  /** The first `n` pages one after the other, the k-th cut out of the k-th answer. */
  function Walk<T>(answers: nat -> seq<T>, limit: nat, n: nat): seq<T> {
    if n == 0 then [] else Walk(answers, limit, n - 1) + Page(answers(n - 1), Start(n - 1, limit), limit)
  }

  /** How many of `size` rows the first `n` pages hold. */
  function Cut(n: nat, limit: nat, size: nat): (c: nat)
    ensures c <= size
  {
    if Start(n, limit) < size then Start(n, limit) else size
  }

  /** The rows of the first `n` pages of one list. */
  function FirstPages<T>(l: seq<T>, limit: nat, n: nat): seq<T> {
    l[..Cut(n, limit, |l|)]
  }

  lemma NextPage<T>(l: seq<T>, limit: nat, n: nat)
    ensures FirstPages(l, limit, 0) == []
    ensures n > 0 ==> FirstPages(l, limit, n) == FirstPages(l, limit, n - 1) + Page(l, Start(n - 1, limit), limit)
  {
    if n > 0 {
      var p := Start(n - 1, limit);
      assert Start(n, limit) == p + limit;
      hide Start;
      if p < |l| { assert l[..Cut(n, limit, |l|)] == l[..p] + Page(l, p, limit); }
    }
  }

  // ---------------------------------------------------------------- an answer exists

  function Insert<T>(o: SortOrder, key: T -> Option<int>, x: T, l: seq<T>): (r: seq<T>)
    ensures multiset(r) == multiset(l) + multiset{x}
  {
    if l == [] then [x]
    else if MayPrecede(o, key(x), key(l[0])) then [x] + l
    else
      assert l == [l[0]] + l[1..];
      [l[0]] + Insert(o, key, x, l[1..])
  }

  function OrderBy<T>(o: SortOrder, key: T -> Option<int>, rows: seq<T>): (l: seq<T>)
    ensures multiset(l) == multiset(rows)
  {
    if rows == [] then []
    else
      assert rows == [rows[0]] + rows[1..];
      Insert(o, key, rows[0], OrderBy(o, key, rows[1..]))
  }

  lemma {:induction false} InsertOrdered<T(!new)>(o: SortOrder, key: T -> Option<int>, x: T, l: seq<T>)
    requires Ordered(o, key, l)
    ensures Ordered(o, key, Insert(o, key, x, l))
    decreases |l|
  {
    if l != [] && !MayPrecede(o, key(x), key(l[0])) {
      var rest := Insert(o, key, x, l[1..]);
      InsertOrdered(o, key, x, l[1..]);
      forall j | 0 <= j < |rest| ensures MayPrecede(o, key(l[0]), key(rest[j])) {
        assert rest[j] in multiset(rest);
        assert rest[j] == x || rest[j] in l[1..];
      }
    }
  }

  lemma {:induction false} OrderByLists<T(!new)>(o: SortOrder, key: T -> Option<int>, rows: seq<T>)
    ensures Listing(o, key, rows, OrderBy(o, key, rows))
    decreases |rows|
  {
    if rows != [] {
      OrderByLists(o, key, rows[1..]);
      InsertOrdered(o, key, rows[0], OrderBy(o, key, rows[1..]));
    }
  }

  // ---------------------------------------------------------------- distinct keys

  /** Rows with the same key are the same row. */
  ghost predicate KeysIdentify<T(!new)>(key: T -> Option<int>, rows: seq<T>) {
    forall x, y :: x in rows && y in rows && key(x) == key(y) ==> x == y
  }

  lemma SameFirst<T(!new)>(o: SortOrder, key: T -> Option<int>, a: seq<T>, b: seq<T>)
    requires KeysIdentify(key, a) && Ordered(o, key, a) && Listing(o, key, a, b) && a != [] && b != []
    ensures a[0] == b[0]
  {
    assert a[0] in multiset(b) && b[0] in multiset(a);
    var i :| 0 <= i < |a| && a[i] == b[0];
    var j :| 0 <= j < |b| && b[j] == a[0];
    if i > 0 && j > 0 {
      assert MayPrecede(o, key(a[0]), key(a[i])) && MayPrecede(o, key(b[0]), key(b[j]));
    }
  }

  lemma {:induction false} OneListing<T(!new)>(o: SortOrder, key: T -> Option<int>, a: seq<T>, b: seq<T>)
    requires KeysIdentify(key, a) && Ordered(o, key, a) && Listing(o, key, a, b)
    ensures a == b
    decreases |a|
  {
    assert |multiset(a)| == |a| && |multiset(b)| == |b|;
    if a != [] {
      SameFirst(o, key, a, b);
      assert a == [a[0]] + a[1..] && b == [b[0]] + b[1..];
      assert multiset(a[1..]) == multiset(a) - multiset{a[0]};
      assert multiset(b[1..]) == multiset(b) - multiset{a[0]};
      OneListing(o, key, a[1..], b[1..]);
    }
  }

  lemma AnswerIsOrderBy<T(!new)>(o: SortOrder, key: T -> Option<int>, rows: seq<T>, a: seq<T>)
    requires KeysIdentify(key, rows) && Listing(o, key, rows, a)
    ensures a == OrderBy(o, key, rows)
  {
    var l := OrderBy(o, key, rows);
    OrderByLists(o, key, rows);
    forall x | x in l ensures x in rows { assert x in multiset(l); }
    OneListing(o, key, l, a);
  }

  /** With distinct keys the pages concatenate to the ordered list, whichever answers they are cut
      out of. */
  lemma {:induction false} PagesConcatenate<T(!new)>(
      o: SortOrder, key: T -> Option<int>, rows: seq<T>, answers: nat -> seq<T>, limit: nat, n: nat)
    requires KeysIdentify(key, rows)
    requires forall k: nat :: k < n ==> Listing(o, key, rows, answers(k))
    ensures var l := OrderBy(o, key, rows); Walk(answers, limit, n) == FirstPages(l, limit, n)
    decreases n
  {
    var l := OrderBy(o, key, rows);
    hide FirstPages, Page, Start, OrderBy, KeysIdentify, Listing;
    NextPage(l, limit, n);
    if n > 0 {
      PagesConcatenate(o, key, rows, answers, limit, n - 1);
      AnswerIsOrderBy(o, key, rows, answers(n - 1));
    }
  }

  // ---------------------------------------------------------------- tied keys

  /** No two neighbours across a page boundary are tied. */
  ghost predicate CleanCuts<T>(key: T -> Option<int>, l: seq<T>, limit: nat)
    requires limit > 0
  {
    forall k: nat :: 0 < Start(k, limit) < |l| ==> key(l[Start(k, limit) - 1]) != key(l[Start(k, limit)])
  }

  /** The rows before position `p` of `l` are the rows with small keys, if the cut at `p` is clean. */
  lemma LowPart<T(!new)>(o: SortOrder, key: T -> Option<int>, l: seq<T>, p: nat, bound: Option<int>, x: T)
    requires p <= |l|
    requires forall i :: 0 <= i < p ==> MayPrecede(o, key(l[i]), bound)
    requires forall i :: p <= i < |l| ==> !MayPrecede(o, key(l[i]), bound)
    ensures multiset(l[..p])[x] == if MayPrecede(o, key(x), bound) then multiset(l)[x] else 0
  {
    assert l == l[..p] + l[p..];
    if x in l[..p] { assert MayPrecede(o, key(x), bound); }
    if x in l[p..] { assert !MayPrecede(o, key(x), bound); }
  }

  /** How many rows of an ordered list may stand before the bound: they are the first ones. */
  lemma {:induction false} LowCount<T(!new)>(o: SortOrder, key: T -> Option<int>, l: seq<T>, bound: Option<int>)
    returns (q: nat)
    requires Ordered(o, key, l)
    ensures q <= |l|
    ensures forall i :: 0 <= i < q ==> MayPrecede(o, key(l[i]), bound)
    ensures forall i :: q <= i < |l| ==> !MayPrecede(o, key(l[i]), bound)
    decreases |l|
  {
    if l == [] || !MayPrecede(o, key(l[|l| - 1]), bound) {
      if l == [] { return 0; }
      q := LowCount(o, key, l[..|l| - 1], bound);
    } else {
      q := |l|;
    }
  }

  /** A clean cut of one answer cuts every answer into the same two sets of rows. */
  lemma CleanCutShared<T(!new)>(o: SortOrder, key: T -> Option<int>, l: seq<T>, a: seq<T>, p: nat)
    requires Ordered(o, key, l) && Listing(o, key, l, a) && p <= |l|
    requires 0 < p < |l| ==> key(l[p - 1]) != key(l[p])
    ensures |a| == |l| && multiset(a[..p]) == multiset(l[..p])
  {
    assert |a| == |multiset(a)| == |multiset(l)| == |l|;
    if 0 < p < |l| {
      var bound := key(l[p - 1]);
      var q := LowCount(o, key, a, bound);
      forall x ensures multiset(l[..p])[x] == multiset(a[..q])[x] {
        LowPart(o, key, l, p, bound, x);
        LowPart(o, key, a, q, bound, x);
      }
      assert multiset(l[..p]) == multiset(a[..q]);
      assert |multiset(l[..p])| == p && |multiset(a[..q])| == q;
    } else {
      assert p == 0 || (l[..p] == l && a[..p] == a);
    }
  }

  lemma FirstPagesShared<T(!new)>(o: SortOrder, key: T -> Option<int>, l: seq<T>, a: seq<T>, limit: nat, n: nat)
    requires limit > 0 && Ordered(o, key, l) && CleanCuts(key, l, limit) && Listing(o, key, l, a)
    ensures multiset(FirstPages(a, limit, n)) == multiset(FirstPages(l, limit, n))
  {
    CleanCutShared(o, key, l, a, Cut(n, limit, |l|));
  }

  lemma {:induction false} WalkOfCleanCuts<T(!new)>(
      o: SortOrder, key: T -> Option<int>, l: seq<T>, answers: nat -> seq<T>, limit: nat, n: nat)
    requires limit > 0 && Ordered(o, key, l) && CleanCuts(key, l, limit)
    requires forall k: nat :: Listing(o, key, l, answers(k))
    ensures multiset(Walk(answers, limit, n)) == multiset(FirstPages(l, limit, n))
    decreases n
  {
    hide FirstPages, Page, Start, CleanCuts, Ordered, Listing;
    NextPage(l, limit, n);
    if n > 0 {
      WalkOfCleanCuts(o, key, l, answers, limit, n - 1);
      var a := answers(n - 1);
      NextPage(a, limit, n);
      FirstPagesShared(o, key, l, a, limit, n - 1);
      FirstPagesShared(o, key, l, a, limit, n);
    }
  }

  lemma SwapTied<T(!new)>(o: SortOrder, key: T -> Option<int>, l: seq<T>, p: nat)
    requires Ordered(o, key, l) && 0 < p < |l| && key(l[p - 1]) == key(l[p])
    ensures Listing(o, key, l, l[p - 1 := l[p]][p := l[p - 1]])
  {
    var s := l[p - 1 := l[p]][p := l[p - 1]];
    assert forall i :: 0 <= i < |l| ==> key(s[i]) == key(l[i]);
  }

  /** Where a row of a walk comes from. */
  lemma {:induction false} InWalk<T(!new)>(answers: nat -> seq<T>, limit: nat, n: nat, x: T)
    returns (k: nat, i: nat)
    requires x in Walk(answers, limit, n)
    ensures k < n && Start(k, limit) <= i < Start(k + 1, limit) && i < |answers(k)| && answers(k)[i] == x
    decreases n
  {
    var page := Page(answers(n - 1), Start(n - 1, limit), limit);
    if x in page {
      var j :| 0 <= j < |page| && page[j] == x;
      k, i := n - 1, Start(n - 1, limit) + j;
    } else {
      k, i := InWalk(answers, limit, n - 1, x);
    }
  }

  lemma {:induction false} SamePage(j: nat, k: nat, i: nat, limit: nat)
    requires Start(j, limit) <= i < Start(j + 1, limit) && Start(k, limit) <= i < Start(k + 1, limit)
    ensures j == k
  {
    if j < k { StartsInOrder(j, k, limit); }
    if k < j { StartsInOrder(k, j, limit); }
  }

  /** The second of two rows tied across the start `p` of page `b` stands on page `b` in one answer
      and before it in the other. */
  lemma NotOnOwnPage<T(!new)>(l: seq<T>, s: seq<T>, limit: nat, b: nat, k: nat, i: nat)
    requires Distinct(l)
    requires limit > 0 && 0 < Start(b, limit) < |l|
    requires var p := Start(b, limit); s == l[p - 1 := l[p]][p := l[p - 1]]
    requires Start(k, limit) <= i < Start(k + 1, limit) && i < |l|
    ensures (if k == b then s else l)[i] != l[Start(b, limit)]
  {
    if k != b && i == Start(b, limit) { SamePage(k, b, i, limit); }
  }

  /** An answer for page `b` that swaps two rows tied across the start of that page loses one. */
  lemma TieLosesRow<T(!new)>(o: SortOrder, key: T -> Option<int>, l: seq<T>, limit: nat, b: nat, n: nat)
    returns (answers: nat -> seq<T>)
    requires limit > 0 && Ordered(o, key, l) && Distinct(l)
    requires 0 < Start(b, limit) < |l| && key(l[Start(b, limit) - 1]) == key(l[Start(b, limit)])
    ensures forall k: nat :: Listing(o, key, l, answers(k))
    ensures l[Start(b, limit)] !in Walk(answers, limit, n)
  {
    var p := Start(b, limit);
    var s := l[p - 1 := l[p]][p := l[p - 1]];
    SwapTied(o, key, l, p);
    answers := (k: nat) => if k == b then s else l;
    if l[p] in Walk(answers, limit, n) {
      var k, i := InWalk(answers, limit, n, l[p]);
      NotOnOwnPage(l, s, limit, b, k, i);
    }
  }

  /** Every row is shown exactly once, in whatever order the database lists tied rows. */
  ghost predicate EachRowOnce<T(!new)>(o: SortOrder, key: T -> Option<int>, rows: seq<T>, limit: nat, n: nat) {
    forall answers: nat -> seq<T> :: (forall k: nat :: Listing(o, key, rows, answers(k))) ==>
      multiset(Walk(answers, limit, n)) == multiset(rows)
  }

  lemma CleanCutsSuffice<T(!new)>(
      o: SortOrder, key: T -> Option<int>, rows: seq<T>, answers: nat -> seq<T>, limit: nat, n: nat)
    requires limit > 0 && Start(n, limit) >= |rows| && CleanCuts(key, OrderBy(o, key, rows), limit)
    requires forall k: nat :: Listing(o, key, rows, answers(k))
    ensures multiset(Walk(answers, limit, n)) == multiset(rows)
  {
    var l := OrderBy(o, key, rows);
    OrderByLists(o, key, rows);
    assert |l| == |multiset(l)| == |rows|;
    WalkOfCleanCuts(o, key, l, answers, limit, n);
    assert FirstPages(l, limit, n) == l;
  }

  lemma MissingRow<T>(w: seq<T>, rows: seq<T>, l: seq<T>, y: T)
    requires multiset(l) == multiset(rows) && y in l && y !in w
    ensures multiset(w) != multiset(rows)
  {
    assert multiset(w)[y] == 0 && y in multiset(l);
  }

  lemma TieBreaks<T(!new)>(o: SortOrder, key: T -> Option<int>, rows: seq<T>, l: seq<T>, limit: nat, n: nat)
    requires limit > 0 && Distinct(rows)
    requires Listing(o, key, rows, l) && !CleanCuts(key, l, limit)
    ensures !EachRowOnce(o, key, rows, limit, n)
  {
    var b: nat :| 0 < Start(b, limit) < |l| && key(l[Start(b, limit) - 1]) == key(l[Start(b, limit)]);
    var y := l[Start(b, limit)];
    NoRepeats(rows, l);
    var answers := TieLosesRow(o, key, l, limit, b, n);
    hide Ordered, Walk, CleanCuts, Start;
    assert forall k: nat :: Listing(o, key, rows, answers(k));
    MissingRow(Walk(answers, limit, n), rows, l, y);
  }

  /** Exactly when enough pages show each row once: if and only if no page boundary separates two
      tied rows. */
  lemma EachRowOnceIff<T(!new)>(o: SortOrder, key: T -> Option<int>, rows: seq<T>, limit: nat, n: nat)
    requires limit > 0 && Start(n, limit) >= |rows|
    requires Distinct(rows)
    ensures EachRowOnce(o, key, rows, limit, n) <==> CleanCuts(key, OrderBy(o, key, rows), limit)
  {
    if CleanCuts(key, OrderBy(o, key, rows), limit) {
      forall answers: nat -> seq<T> | forall k: nat :: Listing(o, key, rows, answers(k))
        ensures multiset(Walk(answers, limit, n)) == multiset(rows)
      {
        CleanCutsSuffice(o, key, rows, answers, limit, n);
      }
    } else {
      OrderByLists(o, key, rows);
      TieBreaks(o, key, rows, OrderBy(o, key, rows), limit, n);
    }
  }

  lemma {:induction false} CountOfDistinct<T>(rows: seq<T>, x: T)
    requires Distinct(rows)
    ensures multiset(rows)[x] <= 1
    decreases |rows|
  {
    if rows != [] {
      assert rows == rows[..|rows| - 1] + [rows[|rows| - 1]];
      CountOfDistinct(rows[..|rows| - 1], x);
    }
  }

  lemma NoRepeats<T>(rows: seq<T>, l: seq<T>)
    requires multiset(l) == multiset(rows) && Distinct(rows)
    ensures Distinct(l)
  {
    forall i, j | 0 <= i < j < |l| ensures l[i] != l[j] {
      CountOfDistinct(rows, l[i]);
      assert l == l[..j] + [l[j]] + l[j + 1..];
      assert l[..j][i] == l[i];
      assert l[i] in multiset(l[..j]);
    }
  }
}
