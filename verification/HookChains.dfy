/**
  The order of hook chains: higher priority first, then manifest id, then registration index; and the
  stable sort by it.
 */
module HookChains {
  datatype HookKind =
    | BeforeTurn | AfterTurn | OnChatParams | OnChatMessages | OnChatHeaders
    | BeforeToolCall | AfterToolCall | OnPermissionAsk | OnMessage | OnCostTick
    | OnStepFinish | OnCompaction | OnSessionStatus | OnEvent | Notification

  /** A registered handler; `H` is the closure, which ordering never looks at. */
  datatype Entry<H> = Entry(manifestId: string, priority: int, index: nat, kind: HookKind, func: H)

  type Chain<H> = seq<Entry<H>>

  // ----- the order ----------------------------------------------------------------------------

  /** Strings compared character by character, a proper prefix first. */
  predicate Less(a: string, b: string)
  {
    b != "" && (a == "" || a[0] < b[0] || (a[0] == b[0] && Less(a[1..], b[1..])))
  }

  lemma {:induction false} LessIsStrict(a: string, b: string)
    ensures !(Less(a, b) && Less(b, a))
    ensures Less(a, b) || Less(b, a) || a == b
    ensures Less(a, b) ==> a != b
  {
    if a != "" && b != "" {
      LessIsStrict(a[1..], b[1..]);
      assert a == [a[0]] + a[1..] && b == [b[0]] + b[1..];
    } else if a == "" {
      LessNothing(b);
    }
  }

  lemma LessNothing(b: string)
    ensures !Less(b, "")
  {
  }

  lemma {:induction false} LessIsTransitive(a: string, b: string, c: string)
    requires Less(a, b) && Less(b, c)
    ensures Less(a, c)
  {
    if a != "" && a[0] == b[0] == c[0] { LessIsTransitive(a[1..], b[1..], c[1..]); }
  }

  /** `a` runs before `b`. */
  predicate Before<H>(a: Entry<H>, b: Entry<H>)
  {
    || a.priority > b.priority
    || (a.priority == b.priority && Less(a.manifestId, b.manifestId))
    || (a.priority == b.priority && a.manifestId == b.manifestId && a.index < b.index)
  }

  /** A strict order whose ties have the same manifest id and registration index. */
  lemma BeforeIsStrict<H>(a: Entry<H>, b: Entry<H>)
    ensures !(Before(a, b) && Before(b, a))
    ensures Before(a, b) || Before(b, a) || (a.priority == b.priority && SameKey(a, b))
  {
    LessIsStrict(a.manifestId, b.manifestId);
  }

  lemma NotBeforeIsTransitive<H>(a: Entry<H>, b: Entry<H>, c: Entry<H>)
    requires !Before(b, a) && !Before(c, b)
    ensures !Before(c, a)
  {
    hide Less;
    var x, y, z := a.manifestId, b.manifestId, c.manifestId;
    LessIsStrict(x, y);
    LessIsStrict(y, z);
    LessIsStrict(x, z);
    if Less(x, y) && Less(y, z) { LessIsTransitive(x, y, z); }
  }

  predicate Ordered<H>(c: Chain<H>) { forall i, j :: 0 <= i < j < |c| ==> !Before(c[j], c[i]) }

  // ----- the sort -----------------------------------------------------------------------------

  function Insert<H>(e: Entry<H>, c: Chain<H>): Chain<H>
  {
    if c == [] || !Before(c[0], e) then [e] + c else [c[0]] + Insert(e, c[1..])
  }

  function Sort<H>(c: Chain<H>): Chain<H>
  {
    if c == [] then [] else Insert(c[0], Sort(c[1..]))
  }

  lemma {:induction false} InsertConserves<H>(e: Entry<H>, c: Chain<H>)
    ensures multiset(Insert(e, c)) == multiset{e} + multiset(c)
  {
    hide Before;
    if c != [] {
      InsertConserves(e, c[1..]);
      assert c == [c[0]] + c[1..];
      assert multiset(c) == multiset{c[0]} + multiset(c[1..]);
    }
  }

  /** Sorting loses no entry and adds none. */
  lemma {:induction false} SortConserves<H>(c: Chain<H>)
    ensures multiset(Sort(c)) == multiset(c)
  {
    hide Insert;
    if c != [] {
      SortConserves(c[1..]);
      InsertConserves(c[0], Sort(c[1..]));
      assert c == [c[0]] + c[1..];
      assert multiset(c) == multiset{c[0]} + multiset(c[1..]);
    }
  }

  lemma OrderedCons<H>(e: Entry<H>, c: Chain<H>)
    requires Ordered(c) && (c == [] || !Before(c[0], e))
    ensures Ordered([e] + c)
  {
    hide Before;
    forall j | 0 <= j < |c|
      ensures !Before(c[j], e)
    {
      if j > 0 { NotBeforeIsTransitive(e, c[0], c[j]); }
    }
  }

  lemma {:induction false} InsertOrdered<H>(e: Entry<H>, c: Chain<H>)
    requires Ordered(c)
    ensures Ordered(Insert(e, c))
  {
    hide Before;
    if c == [] || !Before(c[0], e) {
      OrderedCons(e, c);
    } else {
      InsertOrdered(e, c[1..]);
      BeforeIsStrict(c[0], e);
      var rest := Insert(e, c[1..]);
      assert rest[0] == e || (c[1..] != [] && rest[0] == c[1]);
      OrderedCons(c[0], rest);
    }
  }

  lemma {:induction false} SortOrdered<H>(c: Chain<H>)
    ensures Ordered(Sort(c))
  {
    hide Ordered;
    if c != [] {
      SortOrdered(c[1..]);
      InsertOrdered(c[0], Sort(c[1..]));
    } else {
      NothingOrdered<H>();
    }
  }

  lemma NothingOrdered<H>()
    ensures Ordered<H>([])
  {
  }

  /** A chain in order is left as it is, ties included. */
  lemma {:induction false} OrderedIsFixed<H>(c: Chain<H>)
    requires Ordered(c)
    ensures Sort(c) == c
  {
    hide Before;
    if c != [] { OrderedIsFixed(c[1..]); }
  }

  lemma SortIsIdempotent<H>(c: Chain<H>)
    ensures Sort(Sort(c)) == Sort(c)
  {
    SortOrdered(c);
    OrderedIsFixed(Sort(c));
  }

  // ----- what the order is ----------------------------------------------------------------------

  /** The strings agree up to `n`, where `a` ends or has the smaller character. */
  predicate DiffersAt(a: string, b: string, n: nat)
  {
    n <= |a| && n < |b| && a[..n] == b[..n] && (n == |a| || a[n] < b[n])
  }

  /** Strings are compared at their first difference. */
  lemma {:induction false} LessIff(a: string, b: string)
    ensures Less(a, b) <==> exists n: nat :: DiffersAt(a, b, n)
  {
    if b != "" && (a == "" || a[0] < b[0]) {
      assert DiffersAt(a, b, 0);
    } else if b != "" && a[0] == b[0] {
      LessIff(a[1..], b[1..]);
      assert a == [a[0]] + a[1..] && b == [b[0]] + b[1..];
      if n: nat :| DiffersAt(a[1..], b[1..], n) {
        assert a[..n + 1] == [a[0]] + a[1..][..n] && b[..n + 1] == [b[0]] + b[1..][..n];
        assert DiffersAt(a, b, n + 1);
      }
      if n: nat :| DiffersAt(a, b, n) {
        assert a[1..][..n - 1] == a[..n][1..] && b[1..][..n - 1] == b[..n][1..];
        assert DiffersAt(a[1..], b[1..], n - 1);
      }
    } else if n: nat :| DiffersAt(a, b, n) {
      HeadsAgree(a, b, n);
    }
  }

  lemma HeadsAgree(a: string, b: string, n: nat)
    requires DiffersAt(a, b, n)
    ensures n > 0 ==> a != "" && a[0] == b[0]
  {
    if n > 0 { assert a[..n][0] == b[..n][0]; }
  }

  /**
    In a sorted chain the higher priority stands first; among equal ones the smaller manifest id; and the
    hooks of one plugin stand as it registered them.
   */
  lemma SortedByPriority<H>(c: Chain<H>, i: nat, j: nat)
    requires i < j < |Sort(c)|
    ensures var x, y := Sort(c)[i], Sort(c)[j];
            && x.priority >= y.priority
            && (x.priority == y.priority ==>
                  x.manifestId == y.manifestId || exists n: nat :: DiffersAt(x.manifestId, y.manifestId, n))
            && (x.priority == y.priority && x.manifestId == y.manifestId ==> x.index <= y.index)
  {
    hide Sort, Less, DiffersAt;
    SortOrdered(c);
    var x, y := Sort(c)[i], Sort(c)[j];
    LessIsStrict(x.manifestId, y.manifestId);
    LessIff(x.manifestId, y.manifestId);
  }

  // ----- one order only -----------------------------------------------------------------------

  predicate SameKey<H>(a: Entry<H>, b: Entry<H>) { a.manifestId == b.manifestId && a.index == b.index }

  predicate DistinctKeys<H>(c: Chain<H>) { forall i, j :: 0 <= i < j < |c| ==> !SameKey(c[i], c[j]) }

  lemma SameHead<H>(a: Chain<H>, b: Chain<H>)
    requires Ordered(a) && Ordered(b) && DistinctKeys(a) && multiset(a) == multiset(b) && a != []
    ensures b != [] && a[0] == b[0]
  {
    assert a[0] in multiset(a);
    assert a[0] in b;
    assert b[0] in multiset(b);
    assert b[0] in a;
    var i :| 0 <= i < |b| && b[i] == a[0];
    var j :| 0 <= j < |a| && a[j] == b[0];
    hide Before;
    BeforeIsStrict(a[0], b[0]);
  }

  lemma TailMultiset<T>(s: seq<T>)
    requires s != []
    ensures multiset(s[1..]) == multiset(s) - multiset{s[0]}
  {
    assert s == [s[0]] + s[1..];
    assert multiset(s) == multiset{s[0]} + multiset(s[1..]);
  }

  /** Chains with distinct keys have one ordering: any two ordered arrangements of them are equal. */
  lemma {:induction false} OrderIsUnique<H>(a: Chain<H>, b: Chain<H>)
    requires Ordered(a) && Ordered(b) && DistinctKeys(a) && multiset(a) == multiset(b)
    ensures a == b
  {
    if a == [] {
      assert |b| == |multiset(b)| == 0;
    } else {
      hide Before, SameKey;
      SameHead(a, b);
      TailMultiset(a);
      TailMultiset(b);
      OrderIsUnique(a[1..], b[1..]);
      assert a == [a[0]] + a[1..] && b == [b[0]] + b[1..];
    }
  }

  /** So whatever order the entries came in, sorting them gives the same chain. */
  lemma SortForgetsOrder<H>(a: Chain<H>, b: Chain<H>)
    requires DistinctKeys(a) && multiset(a) == multiset(b)
    ensures Sort(a) == Sort(b)
  {
    SortConserves(a);
    SortConserves(b);
    SortOrdered(a);
    SortOrdered(b);
    KeysSurvive(a, Sort(a));
    hide Sort, Ordered, DistinctKeys;
    OrderIsUnique(Sort(a), Sort(b));
  }

  /** Distinct keys are a property of the entries, not of their places. */
  lemma KeysSurvive<H>(a: Chain<H>, b: Chain<H>)
    requires DistinctKeys(a) && multiset(a) == multiset(b)
    ensures DistinctKeys(b)
  {
    hide SameKey;
    forall i, j | 0 <= i < j < |b|
      ensures !SameKey(b[i], b[j])
    {
      TwoPlaces(a, b, i, j);
    }
  }

  lemma TwoPlaces<H>(a: Chain<H>, b: Chain<H>, i: nat, j: nat)
    requires DistinctKeys(a) && multiset(a) == multiset(b) && i < j < |b|
    ensures !SameKey(b[i], b[j])
  {
    var x, y := b[i], b[j];
    assert x in multiset(b) && y in multiset(b);
    assert x in a && y in a;
    var p :| 0 <= p < |a| && a[p] == x;
    var q :| 0 <= q < |a| && a[q] == y;
    OccursTwice(b, i, j);
    OccursOnce(a, p);
    assert p != q;
  }

  lemma OccursTwice<T>(s: seq<T>, i: nat, j: nat)
    requires i < j < |s|
    ensures s[i] == s[j] ==> multiset(s)[s[i]] >= 2
  {
    assert s == s[..i] + [s[i]] + s[i + 1..j] + [s[j]] + s[j + 1..];
    assert multiset(s)
        == multiset(s[..i]) + multiset{s[i]} + multiset(s[i + 1..j]) + multiset{s[j]} + multiset(s[j + 1..]);
  }

  lemma OccursOnce<T>(s: seq<T>, p: nat)
    requires p < |s| && forall k :: 0 <= k < |s| && k != p ==> s[k] != s[p]
    ensures multiset(s)[s[p]] == 1
  {
    assert s == s[..p] + [s[p]] + s[p + 1..];
    assert s[p] !in s[..p] && s[p] !in s[p + 1..];
    assert multiset(s) == multiset(s[..p]) + multiset{s[p]} + multiset(s[p + 1..]);
  }
}
