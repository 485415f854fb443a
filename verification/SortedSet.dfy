/** A Redis sorted set: entries in the order of (score, member), one for each member. */
module SortedSet {
  import opened Domain

  predicate StringLess(a: string, b: string) {
    b != [] && (a == [] || a[0] < b[0] || (a[0] == b[0] && StringLess(a[1..], b[1..])))
  }

  lemma {:induction false} StringLessIsStrictOrder(a: string, b: string, c: string)
    ensures !StringLess(a, a)
    ensures StringLess(a, b) && StringLess(b, c) ==> StringLess(a, c)
    ensures StringLess(a, b) || StringLess(b, a) || a == b
    ensures !(StringLess(a, b) && StringLess(b, a))
    decreases |a|
  {
    if a != [] {
      var b' := if b == [] then [] else b[1..];
      var c' := if c == [] then [] else c[1..];
      StringLessIsStrictOrder(a[1..], b', c');
      if b != [] && a[0] == b[0] && a[1..] == b[1..] {
        assert a == [a[0]] + a[1..] && b == [b[0]] + b[1..];
      }
    }
  }

  /** The first place where the two differ, or where the shorter ends. */
  predicate DifferAt(a: string, b: string, k: nat) {
    && k <= |a| && k < |b| && a[..k] == b[..k]
    && (k == |a| || a[k] < b[k])
  }

  lemma SameBefore(a: string, b: string, k: nat)
    requires DifferAt(a, b, k)
    ensures forall i :: 0 <= i < k ==> a[i] == b[i]
  {
    assert forall i :: 0 <= i < k ==> a[i] == a[..k][i] && b[i] == b[..k][i];
  }

  /** It is the lexicographic order: a proper prefix comes first, and else the first difference decides. */
  lemma {:induction false} StringLessIsLexicographic(a: string, b: string)
    ensures StringLess(a, b) <==> exists k: nat :: DifferAt(a, b, k)
    decreases |a|
  {
    if a == [] || b == [] || a[0] != b[0] {
      if b != [] && (a == [] || a[0] < b[0]) { assert DifferAt(a, b, 0); }
      if k: nat :| DifferAt(a, b, k) { SameBefore(a, b, k); }
    } else {
      StringLessIsLexicographic(a[1..], b[1..]);
      if k: nat :| DifferAt(a[1..], b[1..], k) {
        assert a[..k + 1] == [a[0]] + a[1..][..k] && b[..k + 1] == [b[0]] + b[1..][..k];
        assert DifferAt(a, b, k + 1);
      }
      if k: nat :| DifferAt(a, b, k) {
        assert k > 0;
        assert a[1..][..k - 1] == a[..k][1..] && b[1..][..k - 1] == b[..k][1..];
        assert DifferAt(a[1..], b[1..], k - 1);
      }
    }
  }

  datatype Entry = Entry(score: int, member: string)

  predicate Before(x: Entry, y: Entry) {
    x.score < y.score || (x.score == y.score && StringLess(x.member, y.member))
  }

  /** Redis's order: by score, and among equal scores by member. */
  lemma BeforeIsByScoreThenMember(x: Entry, y: Entry)
    ensures Before(x, y)
            <==> x.score < y.score || (x.score == y.score && exists k: nat :: DifferAt(x.member, y.member, k))
  {
    StringLessIsLexicographic(x.member, y.member);
  }

  lemma BeforeIsStrictOrder(x: Entry, y: Entry, z: Entry)
    ensures !Before(x, x)
    ensures Before(x, y) && Before(y, z) ==> Before(x, z)
    ensures Before(x, y) || Before(y, x) || x == y
    ensures !(Before(x, y) && Before(y, x))
  {
    StringLessIsStrictOrder(x.member, y.member, z.member);
  }

  predicate Valid(z: seq<Entry>) {
    && (forall i, j :: 0 <= i < j < |z| ==> Before(z[i], z[j]))
    && (forall i, j :: 0 <= i < j < |z| ==> z[i].member != z[j].member)
  }

  /** ZRANK: how many entries stand before the member's, None when it is not there. */
  function Rank(z: seq<Entry>, member: string): (r: Option<nat>)
    ensures r.Some? ==> r.value < |z| && z[r.value].member == member
    ensures r.None? ==> forall i :: 0 <= i < |z| ==> z[i].member != member
  {
    if z == [] then None
    else if z[|z| - 1].member == member then Some(|z| - 1)
    else Rank(z[..|z| - 1], member)
  }

  predicate Has(z: seq<Entry>, member: string) { Rank(z, member).Some? }

  lemma RankIs(z: seq<Entry>, i: nat)
    requires Valid(z) && i < |z|
    ensures Rank(z, z[i].member) == Some(i)
  {
    assert Rank(z, z[i].member) != None;
  }

  /** How many entries a new one goes behind. */
  function Slot(z: seq<Entry>, e: Entry): (k: nat)
    ensures k <= |z|
  {
    if z == [] || Before(e, z[0]) then 0 else 1 + Slot(z[1..], e)
  }

  lemma {:induction false} SlotSplits(z: seq<Entry>, e: Entry)
    requires Valid(z) && !Has(z, e.member)
    ensures forall i :: 0 <= i < Slot(z, e) ==> Before(z[i], e)
    ensures forall i :: Slot(z, e) <= i < |z| ==> Before(e, z[i])
    decreases |z|
  {
    if z != [] {
      if Before(e, z[0]) {
        forall i | 0 <= i < |z| ensures Before(e, z[i]) { BeforeIsStrictOrder(e, z[0], z[i]); }
      } else {
        BeforeIsStrictOrder(e, z[0], e);
        assert forall i :: 0 <= i < |z| - 1 ==> z[1..][i] == z[i + 1];
        SlotSplits(z[1..], e);
        forall i | 0 <= i < Slot(z, e) ensures Before(z[i], e) {
          if i > 0 { assert Before(z[1..][i - 1], e); }
        }
        forall i | Slot(z, e) <= i < |z| ensures Before(e, z[i]) { assert Before(e, z[1..][i - 1]); }
      }
    }
  }

  /** ZADD NX: a member that is there keeps its score and its place. */
  function Add(z: seq<Entry>, e: Entry): seq<Entry> {
    if Has(z, e.member) then z else z[..Slot(z, e)] + [e] + z[Slot(z, e)..]
  }

  lemma AddElements(z: seq<Entry>, e: Entry)
    ensures forall x :: x in Add(z, e) <==> x in z || (x == e && !Has(z, e.member))
  {
    if !Has(z, e.member) {
      assert z == z[..Slot(z, e)] + z[Slot(z, e)..];
    }
  }

  lemma AddHas(z: seq<Entry>, e: Entry)
    ensures Has(Add(z, e), e.member)
  {
    if !Has(z, e.member) {
      var t := Add(z, e);
      assert t[Slot(z, e)] == e;
    }
  }

  lemma AddSorted(z: seq<Entry>, e: Entry)
    requires Valid(z)
    ensures Valid(Add(z, e))
  {
    if !Has(z, e.member) {
      SlotSplits(z, e);
      var k := Slot(z, e);
      var t := Add(z, e);
      assert forall i :: 0 <= i < k ==> t[i] == z[i];
      assert t[k] == e;
      assert forall i :: k < i < |t| ==> t[i] == z[i - 1];
      forall i, j | 0 <= i < j < |t| ensures Before(t[i], t[j]) {
        if i < k && j > k { BeforeIsStrictOrder(z[i], e, z[j - 1]); }
      }
    }
  }

  lemma AddKeepsValid(z: seq<Entry>, e: Entry)
    requires Valid(z)
    ensures Valid(Add(z, e)) && Has(Add(z, e), e.member)
    ensures forall x :: x in Add(z, e) <==> x in z || (x == e && !Has(z, e.member))
  {
    AddSorted(z, e);
    AddHas(z, e);
    AddElements(z, e);
  }

  /** The entries that stand before `e`. */
  function Ahead(z: seq<Entry>, e: Entry): set<Entry> { set x | x in z && Before(x, e) }

  function Elements(z: seq<Entry>): set<Entry> { set x | x in z }

  lemma ElementsSnoc(z: seq<Entry>, e: Entry)
    requires e !in z
    ensures |Elements(z + [e])| == |Elements(z)| + 1
  {
    assert Elements(z + [e]) == Elements(z) + {e};
  }

  lemma {:induction false} PrefixSize(z: seq<Entry>, k: nat)
    requires Valid(z) && k <= |z|
    ensures |Elements(z[..k])| == k
    decreases k
  {
    if k > 0 {
      var before := z[..k - 1];
      PrefixSize(z, k - 1);
      assert z[..k] == before + [z[k - 1]];
      assert forall i :: 0 <= i < k - 1 ==> before[i].member != z[k - 1].member;
      ElementsSnoc(before, z[k - 1]);
    }
  }

  lemma AheadIsPrefix(z: seq<Entry>, i: nat)
    requires Valid(z) && i < |z|
    ensures Ahead(z, z[i]) == Elements(z[..i])
  {
    forall x | x in z && Before(x, z[i]) ensures x in z[..i] {
      var j :| 0 <= j < |z| && z[j] == x;
      if j > i { BeforeIsStrictOrder(z[i], z[j], z[i]); }
      if j == i { BeforeIsStrictOrder(z[i], z[i], z[i]); }
      assert z[..i][j] == x;
    }
    forall x | x in z[..i] ensures x in z && Before(x, z[i]) {
      var j :| 0 <= j < i && z[..i][j] == x;
      assert z[j] == x;
    }
  }

  /** A rank is a count of entries by (score, member), nothing else. */
  lemma RankCountsAhead(z: seq<Entry>, i: nat)
    requires Valid(z) && i < |z|
    ensures |Ahead(z, z[i])| == i && Rank(z, z[i].member) == Some(i)
  {
    RankIs(z, i);
    PrefixSize(z, i);
    AheadIsPrefix(z, i);
  }

  /** The entries of `t` that `z` did not have and that stand before `e`. */
  function Overtakers(z: seq<Entry>, t: seq<Entry>, e: Entry): set<Entry> {
    set x | x in t && x !in z && Before(x, e)
  }

  lemma RankGrowsByOvertakers(z: seq<Entry>, t: seq<Entry>, i: nat, j: nat)
    requires Valid(z) && Valid(t) && forall x :: x in z ==> x in t
    requires i < |z| && j < |t| && t[j] == z[i]
    ensures j == i + |Overtakers(z, t, z[i])|
  {
    var e := z[i];
    RankCountsAhead(z, i);
    RankCountsAhead(t, j);
    assert Ahead(t, e) == Ahead(z, e) + Overtakers(z, t, e);
  }

  lemma AheadAfterAdd(z: seq<Entry>, e: Entry, x: Entry)
    requires !Has(z, e.member)
    ensures Ahead(Add(z, e), x) == if Before(e, x) then Ahead(z, x) + {e} else Ahead(z, x)
  {
    AddElements(z, e);
  }

  /** The rank a member gets when it is added is the number of entries that sort before it. */
  lemma RankWhenAdded(z: seq<Entry>, e: Entry)
    requires Valid(z) && !Has(z, e.member)
    ensures Rank(Add(z, e), e.member) == Some(|Ahead(z, e)|)
  {
    AddSorted(z, e);
    AddElements(z, e);
    var t := Add(z, e);
    assert e in t;
    var i :| 0 <= i < |t| && t[i] == e;
    RankCountsAhead(t, i);
    AheadAfterAdd(z, e, e);
    BeforeIsStrictOrder(e, e, e);
  }

  lemma SubsetSizes<T>(a: set<T>, b: set<T>)
    requires a <= b
    ensures |a| <= |b| && (|a| == |b| <==> a == b)
  {
    assert b == a + (b - a);
  }

  /** The entries that stand after `y` and before `x`. */
  function Between(z: seq<Entry>, y: Entry, x: Entry): set<Entry> { set e | e in z && Before(y, e) && Before(e, x) }

  lemma AheadSplits(z: seq<Entry>, y: Entry, x: Entry)
    requires y !in z && Before(y, x)
    ensures |Ahead(z, x)| == |Ahead(z, y)| + |Between(z, y, x)|
  {
    forall e | e in z ensures Before(e, x) <==> Before(e, y) || (Before(y, e) && Before(e, x)) {
      BeforeIsStrictOrder(e, y, x);
    }
    forall e | e in z ensures !(Before(e, y) && Before(y, e)) { BeforeIsStrictOrder(e, y, e); }
    assert Ahead(z, x) == Ahead(z, y) + Between(z, y, x);
    assert Ahead(z, y) !! Between(z, y, x);
  }

  lemma AheadGrows(z: seq<Entry>, t: seq<Entry>, y: Entry)
    requires forall e :: e in z ==> e in t
    ensures |Ahead(t, y)| == |Ahead(z, y)| + |Overtakers(z, t, y)|
  {
    assert Ahead(t, y) == Ahead(z, y) + Overtakers(z, t, y);
  }

  /** How many entries more or fewer a second newcomer is told of than a first, when others come in between. */
  lemma RanksApart(z: seq<Entry>, first: Entry, later: seq<Entry>, second: Entry)
    requires first !in z && second !in z && first != second
    requires forall x :: x in Add(z, first) ==> x in later
    requires !Has(z, first.member)
    ensures var ahead := |Ahead(later, second)| - |Overtakers(Add(z, first), later, second)|;
            if Before(second, first) then |Ahead(z, first)| == ahead + |Between(z, second, first)|
            else ahead > |Ahead(z, first)|
  {
    AheadGrows(Add(z, first), later, second);
    AheadAfterAdd(z, first, second);
    BeforeIsStrictOrder(first, second, first);
    if Before(second, first) {
      AheadSplits(z, second, first);
    } else {
      AheadIsMonotone(z, first, second);
      SubsetSizes(Ahead(z, first), Ahead(z, second));
    }
  }

  /** A member is added to `z`, others are added until the queue is `later`, and then a second member is: the two
      are told the same rank exactly when the second sorts before the first and the entries between them were
      as many as have since been inserted ahead of the second. */
  lemma SameRankIff(z: seq<Entry>, first: Entry, later: seq<Entry>, second: Entry)
    requires Valid(z) && !Has(z, first.member) && Valid(later) && !Has(later, second.member)
    requires forall x :: x in Add(z, first) ==> x in later
    ensures Rank(Add(z, first), first.member) == Rank(Add(later, second), second.member)
            <==> Before(second, first) && |Between(z, second, first)| == |Overtakers(Add(z, first), later, second)|
  {
    AddElements(z, first);
    HasIffElement(z, first);
    HasIffElement(later, second);
    RankWhenAdded(z, first);
    RankWhenAdded(later, second);
    RanksApart(z, first, later, second);
  }

  lemma HasIffElement(z: seq<Entry>, e: Entry)
    requires !Has(z, e.member)
    ensures e !in z
  {}

  lemma AheadIsMonotone(z: seq<Entry>, x: Entry, y: Entry)
    ensures Before(x, y) ==> Ahead(z, x) <= Ahead(z, y)
    ensures Before(y, x) ==> Ahead(z, y) <= Ahead(z, x)
  {
    forall e | e in z ensures Before(x, y) && Before(e, x) ==> Before(e, y) { BeforeIsStrictOrder(e, x, y); }
    forall e | e in z ensures Before(y, x) && Before(e, y) ==> Before(e, x) { BeforeIsStrictOrder(e, y, x); }
  }

  lemma Located(z: seq<Entry>, e: Entry) returns (i: nat)
    requires Valid(z) && e in z
    ensures i < |z| && z[i] == e && Rank(z, e.member) == Some(i)
  {
    i :| 0 <= i < |z| && z[i] == e;
    RankIs(z, i);
  }

  lemma RankInLarger(z: seq<Entry>, t: seq<Entry>, i: nat)
    requires Valid(z) && Valid(t) && (forall x :: x in z ==> x in t) && i < |z|
    ensures Rank(z, z[i].member) == Some(i)
    ensures Rank(t, z[i].member) == Some(i + |Overtakers(z, t, z[i])|)
  {
    RankIs(z, i);
    var j := Located(t, z[i]);
    RankGrowsByOvertakers(z, t, i, j);
  }

  lemma OvertakersOfAdd(z: seq<Entry>, e: Entry, x: Entry)
    requires !Has(z, e.member)
    ensures |Overtakers(z, Add(z, e), x)| == if Before(e, x) then 1 else 0
  {
    AddElements(z, e);
    HasIffElement(z, e);
    assert Overtakers(z, Add(z, e), x) == if Before(e, x) then {e} else {};
  }

  /** A newcomer moves back by one exactly those it sorts before. */
  lemma RankAfterAdd(z: seq<Entry>, i: nat, e: Entry)
    requires Valid(z) && i < |z| && !Has(z, e.member)
    ensures Rank(z, z[i].member) == Some(i)
    ensures Rank(Add(z, e), z[i].member) == Some(if Before(e, z[i]) then i + 1 else i)
  {
    var t := Add(z, e);
    var x := z[i];
    assert Valid(t) && forall y :: y in z ==> y in t by {
      AddSorted(z, e);
      AddElements(z, e);
    }
    RankInLarger(z, t, i);
    OvertakersOfAdd(z, e, x);
  }
}
