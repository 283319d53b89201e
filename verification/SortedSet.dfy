/**
  The order of a scored result: entries of a map, in whatever order the map is iterated, sorted by score and
  then by member. A score is a real number, an infinity or not a number; the two zeros compare equal.
 */
module SortedSet {

  import opened Bytes

  datatype Score = NegInf | Finite(value: real) | PosInf | NaN

  datatype Entry = Entry(member: ByteString, score: Score)

  predicate ScoreEq(a: Score, b: Score) {
    a == b && !a.NaN?
  }

  predicate ScoreLess(a: Score, b: Score) {
    match (a, b)
    case (NaN, _) => false
    case (_, NaN) => false
    case (NegInf, _) => !b.NegInf?
    case (Finite(x), Finite(y)) => x < y
    case (Finite(_), _) => b.PosInf?
    case (PosInf, _) => false
  }

  // Go's order on strings: bytewise, a proper prefix first.
  predicate StringLess(a: ByteString, b: ByteString) {
    if a == [] then b != []
    else if b == [] then false
    else a[0] < b[0] || (a[0] == b[0] && StringLess(a[1..], b[1..]))
  }

  predicate Less(a: Entry, b: Entry) {
    if ScoreEq(a.score, b.score) then StringLess(a.member, b.member) else ScoreLess(a.score, b.score)
  }

  // The comparison handed to the sort.
  predicate Before(a: Entry, b: Entry, reverse: bool) {
    if reverse then Less(b, a) else Less(a, b)
  }

  // s holds the entries of m, each once.
  ghost predicate Lists(s: seq<Entry>, m: map<ByteString, Score>) {
    && (forall i, j | 0 <= i < j < |s| :: s[i].member != s[j].member)
    && (forall i | 0 <= i < |s| :: s[i].member in m && m[s[i].member] == s[i].score)
    && (forall k | k in m :: Entry(k, m[k]) in s)
  }

  // What a sort leaves behind: nothing comes right after something it is before.
  ghost predicate NoInversion(s: seq<Entry>, reverse: bool) {
    forall i | 0 < i < |s| :: !Before(s[i], s[i - 1], reverse)
  }

  // The entries in an order the comparison agrees with.
  ghost predicate Ranking(s: seq<Entry>, m: map<ByteString, Score>, reverse: bool) {
    Lists(s, m) && NoInversion(s, reverse)
  }

  ghost predicate Comparable(m: map<ByteString, Score>) {
    forall k | k in m :: !m[k].NaN?
  }

  // What the library's sort promises: a permutation, and a ranking when the comparison is a strict order. With a
  // NaN it is not, and where the entries end up is left to the sort.
  ghost predicate Sorted(s: seq<Entry>, m: map<ByteString, Score>, reverse: bool) {
    Lists(s, m) && (Comparable(m) ==> Ranking(s, m, reverse))
  }

  // ---------------------------------------------------------------- the order, said without the code

  // Minus infinity before every finite score, finite scores by their reals, plus infinity last.
  ghost predicate LowerScore(a: Score, b: Score) {
    || (a.NegInf? && (b.Finite? || b.PosInf?))
    || (a.Finite? && b.PosInf?)
    || (a.Finite? && b.Finite? && a.value < b.value)
  }

  // a and b share their first n bytes, and then a ends or has the smaller byte.
  ghost predicate DiffersAt(a: ByteString, b: ByteString, n: nat) {
    && n <= |a| && n <= |b| && a[..n] == b[..n]
    && ((n == |a| && |a| < |b|) || (n < |a| && n < |b| && a[n] < b[n]))
  }

  ghost predicate EarlierMember(a: ByteString, b: ByteString) {
    exists n: nat :: DiffersAt(a, b, n)
  }

  // The lower score first, and among equal scores the earlier member.
  ghost predicate Ascends(a: Entry, b: Entry) {
    LowerScore(a.score, b.score) || (a.score == b.score && EarlierMember(a.member, b.member))
  }

  ghost predicate InOrder(s: seq<Entry>, reverse: bool) {
    forall i, j | 0 <= i < j < |s| :: if reverse then Ascends(s[j], s[i]) else Ascends(s[i], s[j])
  }

  // ---------------------------------------------------------------- the code

  // The map's entries in an arbitrary iteration order.
  method Collect(m: map<ByteString, Score>) returns (s: seq<Entry>)
    ensures Lists(s, m)
  {
    s := [];
    var left := m.Keys;
    while left != {}
      invariant left <= m.Keys
      invariant forall i, j | 0 <= i < j < |s| :: s[i].member != s[j].member
      invariant forall i | 0 <= i < |s| :: s[i].member in m.Keys - left && m[s[i].member] == s[i].score
      invariant forall k | k in m.Keys - left :: Entry(k, m[k]) in s
      decreases |left|
    {
      var k :| k in left;
      s := s + [Entry(k, m[k])];
      left := left - {k};
    }
  }

  function Insert(x: Entry, s: seq<Entry>, reverse: bool): (r: seq<Entry>)
  {
    if s == [] || Before(x, s[0], reverse) then [x] + s else [s[0]] + Insert(x, s[1..], reverse)
  }

  // The sort, by insertion; any other sort that meets this contract gives the same, by the uniqueness below.
  method SortEntries(s: seq<Entry>, ghost m: map<ByteString, Score>, reverse: bool) returns (r: seq<Entry>)
    requires Lists(s, m)
    ensures Sorted(r, m, reverse)
  {
    r := [];
    ghost var part: map<ByteString, Score> := map[];
    for i := 0 to |s|
      invariant Ranking(r, part, reverse) && Prefix(s, i, part)
    {
      PrefixGrows(s, i, part);
      InsertRanks(s[i], r, part, reverse);
      r := Insert(s[i], r, reverse);
      part := part[s[i].member := s[i].score];
    }
    PrefixIsAll(s, part, m);
  }

  // `part` holds the first i entries of s.
  ghost predicate Prefix(s: seq<Entry>, i: nat, part: map<ByteString, Score>) {
    && i <= |s|
    && (forall j | 0 <= j < i :: s[j].member in part && part[s[j].member] == s[j].score)
    && (forall k | k in part :: exists j :: 0 <= j < i && s[j].member == k)
    && (forall j, k | 0 <= j < k < |s| :: s[j].member != s[k].member)
  }

  lemma PrefixGrows(s: seq<Entry>, i: nat, part: map<ByteString, Score>)
    requires i < |s| && Prefix(s, i, part)
    ensures s[i].member !in part && Prefix(s, i + 1, part[s[i].member := s[i].score])
  {}

  lemma PrefixIsAll(s: seq<Entry>, part: map<ByteString, Score>, m: map<ByteString, Score>)
    requires Lists(s, m) && Prefix(s, |s|, part)
    ensures part == m
  {
    assert forall k | k in m :: Entry(k, m[k]) in s;
  }

  /**
    The result lists the entries of the map. Without a NaN it is strictly ordered, and it is the only ranking of
    the map, so neither the iteration order nor the sorting algorithm shows in it.
   */
  method HandleSortedSetWithScores(m: map<ByteString, Score>, reverse: bool) returns (r: seq<Entry>)
    ensures Lists(r, m)
    ensures Comparable(m) ==> InOrder(r, reverse)
    ensures Comparable(m) ==> forall other :: Ranking(other, m, reverse) <==> other == r
  {
    var s := Collect(m);
    r := SortEntries(s, m, reverse);
    if Comparable(m) {
      RankingAscends(r, m, reverse);
      forall other | Ranking(other, m, reverse)
        ensures other == r
      {
        RankingUnique(other, r, m, reverse);
      }
    }
  }

  // ---------------------------------------------------------------- the comparison is a strict order

  lemma {:induction false} StringLessAsymmetric(a: ByteString, b: ByteString)
    ensures !(StringLess(a, b) && StringLess(b, a))
    ensures a != b ==> StringLess(a, b) || StringLess(b, a)
  {
    if a != [] && b != [] {
      StringLessAsymmetric(a[1..], b[1..]);
      if a[0] == b[0] && a[1..] == b[1..] {
        assert a == [a[0]] + a[1..] == b;
      }
    }
  }

  lemma {:induction false} StringLessTransitive(a: ByteString, b: ByteString, c: ByteString)
    requires StringLess(a, b) && StringLess(b, c)
    ensures StringLess(a, c)
  {
    if a != [] && a[0] == b[0] == c[0] {
      StringLessTransitive(a[1..], b[1..], c[1..]);
    }
  }

  lemma LessAsymmetric(a: Entry, b: Entry)
    ensures !(Less(a, b) && Less(b, a))
  {
    StringLessAsymmetric(a.member, b.member);
  }

  lemma LessTotal(a: Entry, b: Entry)
    requires !a.score.NaN? && !b.score.NaN? && a.member != b.member
    ensures Less(a, b) || Less(b, a)
  {
    StringLessAsymmetric(a.member, b.member);
  }

  lemma LessTransitive(a: Entry, b: Entry, c: Entry)
    requires Less(a, b) && Less(b, c)
    ensures Less(a, c)
  {
    if ScoreEq(a.score, b.score) && ScoreEq(b.score, c.score) {
      StringLessTransitive(a.member, b.member, c.member);
    }
  }

  // ---------------------------------------------------------------- inserting keeps a ranking

  lemma {:induction false} InsertContents(x: Entry, s: seq<Entry>, reverse: bool)
    ensures |Insert(x, s, reverse)| == |s| + 1
    ensures forall e :: e in Insert(x, s, reverse) <==> e == x || e in s
  {
    if s != [] && !Before(x, s[0], reverse) {
      InsertContents(x, s[1..], reverse);
      assert s == [s[0]] + s[1..];
    }
  }

  lemma ConsNoInversion(h: Entry, t: seq<Entry>, reverse: bool)
    requires NoInversion(t, reverse) && (t != [] ==> !Before(t[0], h, reverse))
    ensures NoInversion([h] + t, reverse)
  {}

  lemma {:induction false} InsertNoInversion(x: Entry, s: seq<Entry>, reverse: bool)
    requires NoInversion(s, reverse)
    ensures NoInversion(Insert(x, s, reverse), reverse) && Insert(x, s, reverse) != []
    ensures Insert(x, s, reverse)[0] == x || (s != [] && Insert(x, s, reverse)[0] == s[0])
  {
    if s == [] {
    } else if Before(x, s[0], reverse) {
      LessAsymmetric(x, s[0]);
      ConsNoInversion(x, s, reverse);
    } else {
      InsertNoInversion(x, s[1..], reverse);
      ConsNoInversion(s[0], Insert(x, s[1..], reverse), reverse);
    }
  }

  lemma {:induction false} InsertDistinct(x: Entry, s: seq<Entry>, reverse: bool)
    requires forall i, j | 0 <= i < j < |s| :: s[i].member != s[j].member
    requires forall i | 0 <= i < |s| :: s[i].member != x.member
    ensures var r := Insert(x, s, reverse); forall i, j | 0 <= i < j < |r| :: r[i].member != r[j].member
  {
    if s != [] && !Before(x, s[0], reverse) {
      InsertDistinct(x, s[1..], reverse);
      InsertContents(x, s[1..], reverse);
      var r, t := Insert(x, s, reverse), Insert(x, s[1..], reverse);
      forall j | 0 < j < |r|
        ensures r[j].member != s[0].member
      {
        assert r[j] == t[j - 1] && t[j - 1] in t;
      }
    }
  }

  lemma InsertRanks(x: Entry, s: seq<Entry>, m: map<ByteString, Score>, reverse: bool)
    requires Ranking(s, m, reverse) && x.member !in m
    ensures Ranking(Insert(x, s, reverse), m[x.member := x.score], reverse)
  {
    InsertContents(x, s, reverse);
    InsertNoInversion(x, s, reverse);
    InsertDistinct(x, s, reverse);
    var r, n := Insert(x, s, reverse), m[x.member := x.score];
    forall i | 0 <= i < |r|
      ensures r[i].member in n && n[r[i].member] == r[i].score
    {
      assert r[i] in r;
    }
    forall k | k in n
      ensures Entry(k, n[k]) in r
    {
    }
  }

  // ---------------------------------------------------------------- what a ranking is

  lemma {:induction false} StrictFrom(s: seq<Entry>, m: map<ByteString, Score>, reverse: bool, i: nat, j: nat)
    requires Ranking(s, m, reverse) && Comparable(m) && i < j < |s|
    ensures Before(s[i], s[j], reverse)
    decreases j - i
  {
    LessTotal(s[j - 1], s[j]);
    if i < j - 1 {
      StrictFrom(s, m, reverse, i, j - 1);
      if reverse {
        LessTransitive(s[j], s[j - 1], s[i]);
      } else {
        LessTransitive(s[i], s[j - 1], s[j]);
      }
    }
  }

  lemma RankingIsStrict(s: seq<Entry>, m: map<ByteString, Score>, reverse: bool)
    requires Ranking(s, m, reverse) && Comparable(m)
    ensures forall i, j | 0 <= i < j < |s| :: Before(s[i], s[j], reverse)
  {
    forall i, j | 0 <= i < j < |s|
      ensures Before(s[i], s[j], reverse)
    {
      StrictFrom(s, m, reverse, i, j);
    }
  }

  lemma {:induction false} StringLessIff(a: ByteString, b: ByteString)
    ensures StringLess(a, b) <==> EarlierMember(a, b)
  {
    if a == [] {
      assert b != [] ==> DiffersAt(a, b, 0);
    } else if b != [] {
      if a[0] == b[0] {
        StringLessIff(a[1..], b[1..]);
        EarlierAfterSame(a, b);
      } else if a[0] < b[0] {
        assert DiffersAt(a, b, 0);
      }
    }
  }

  lemma EarlierAfterSame(a: ByteString, b: ByteString)
    requires a != [] && b != [] && a[0] == b[0]
    ensures EarlierMember(a[1..], b[1..]) <==> EarlierMember(a, b)
  {
    if n: nat :| DiffersAt(a[1..], b[1..], n) {
      DiffersLater(a, b, n);
    }
    if n: nat :| DiffersAt(a, b, n) {
      assert n > 0;
      DiffersLater(a, b, n - 1);
    }
  }

  lemma DiffersLater(a: ByteString, b: ByteString, n: nat)
    requires a != [] && b != [] && a[0] == b[0]
    ensures DiffersAt(a[1..], b[1..], n) <==> DiffersAt(a, b, n + 1)
  {
    if n < |a| && n < |b| {
      assert a[..n + 1] == [a[0]] + a[1..][..n] && b[..n + 1] == [b[0]] + b[1..][..n];
    }
  }

  lemma LessIff(a: Entry, b: Entry)
    requires !a.score.NaN? && !b.score.NaN?
    ensures Less(a, b) <==> Ascends(a, b)
  {
    StringLessIff(a.member, b.member);
  }

  // Without a NaN a ranking ascends, or with `reverse` descends.
  lemma RankingAscends(s: seq<Entry>, m: map<ByteString, Score>, reverse: bool)
    requires Ranking(s, m, reverse) && Comparable(m)
    ensures InOrder(s, reverse)
  {
    RankingIsStrict(s, m, reverse);
    forall i, j | 0 <= i < j < |s|
      ensures if reverse then Ascends(s[j], s[i]) else Ascends(s[i], s[j])
    {
      LessIff(s[i], s[j]);
      LessIff(s[j], s[i]);
    }
  }

  ghost predicate Strict(s: seq<Entry>) {
    forall i, j | 0 <= i < j < |s| :: Less(s[i], s[j])
  }

  lemma {:induction false} StrictUnique(a: seq<Entry>, b: seq<Entry>)
    requires Strict(a) && Strict(b) && forall e :: e in a <==> e in b
    ensures a == b
  {
    assert b != [] ==> b[0] in a;
    if a != [] {
      assert a[0] in b;
      FirstIsLeast(a, b);
      forall e
        ensures e in a[1..] <==> e in b[1..]
      {
        TailHolds(a, e);
        TailHolds(b, e);
      }
      StrictUnique(a[1..], b[1..]);
      assert a == [a[0]] + a[1..] && b == [b[0]] + b[1..];
    }
  }

  lemma FirstIsLeast(a: seq<Entry>, b: seq<Entry>)
    requires Strict(a) && Strict(b) && a != [] && b != [] && a[0] in b && b[0] in a
    ensures a[0] == b[0]
  {
    LessAsymmetric(a[0], b[0]);
  }

  lemma TailHolds(a: seq<Entry>, e: Entry)
    requires Strict(a) && a != []
    ensures e in a[1..] <==> e in a && e != a[0]
  {
    LessAsymmetric(a[0], a[0]);
    assert a == [a[0]] + a[1..];
  }

  function Reversed(s: seq<Entry>): (r: seq<Entry>)
    ensures |r| == |s| && forall i | 0 <= i < |s| :: r[i] == s[|s| - 1 - i]
  {
    if s == [] then [] else Reversed(s[1..]) + [s[0]]
  }

  lemma ReversedHolds(s: seq<Entry>, e: Entry)
    ensures e in Reversed(s) <==> e in s
  {
    var r := Reversed(s);
    assert forall i | 0 <= i < |s| :: s[i] == r[|s| - 1 - i];
  }

  lemma ReversedStrict(s: seq<Entry>)
    requires forall i, j | 0 <= i < j < |s| :: Before(s[i], s[j], true)
    ensures Strict(Reversed(s))
  {
  }

  lemma ListsHolds(s: seq<Entry>, m: map<ByteString, Score>, e: Entry)
    requires Lists(s, m)
    ensures e in s <==> e.member in m && m[e.member] == e.score
  {
    assert e.member in m && m[e.member] == e.score ==> Entry(e.member, m[e.member]) in s;
  }

  // The ranking, or its reversal, as a strictly increasing sequence of exactly the map's entries.
  lemma RankingStrictForm(s: seq<Entry>, m: map<ByteString, Score>, reverse: bool) returns (t: seq<Entry>)
    requires Ranking(s, m, reverse) && Comparable(m)
    ensures t == (if reverse then Reversed(s) else s) && Strict(t)
    ensures forall e :: e in t <==> e.member in m && m[e.member] == e.score
  {
    RankingIsStrict(s, m, reverse);
    if reverse {
      ReversedStrict(s);
    }
    t := if reverse then Reversed(s) else s;
    forall e
      ensures e in t <==> e.member in m && m[e.member] == e.score
    {
      ReversedHolds(s, e);
      ListsHolds(s, m, e);
    }
  }

  lemma ReversedInjective(a: seq<Entry>, b: seq<Entry>)
    requires Reversed(a) == Reversed(b)
    ensures a == b
  {
    forall i | 0 <= i < |a|
      ensures a[i] == b[i]
    {
      assert Reversed(a)[|a| - 1 - i] == Reversed(b)[|a| - 1 - i];
    }
  }

  lemma RankingUnique(a: seq<Entry>, b: seq<Entry>, m: map<ByteString, Score>, reverse: bool)
    requires Comparable(m) && Ranking(a, m, reverse) && Ranking(b, m, reverse)
    ensures a == b
  {
    var x := RankingStrictForm(a, m, reverse);
    var y := RankingStrictForm(b, m, reverse);
    StrictUnique(x, y);
    if reverse {
      ReversedInjective(a, b);
    }
  }

  // The reverse output is the exact reversal of the forward output.
  lemma ReverseIsReversal(forward: seq<Entry>, backward: seq<Entry>, m: map<ByteString, Score>)
    requires Comparable(m) && Ranking(forward, m, false) && Ranking(backward, m, true)
    ensures |backward| == |forward|
    ensures forall i | 0 <= i < |forward| :: backward[i] == forward[|forward| - 1 - i]
  {
    var x := RankingStrictForm(forward, m, false);
    var y := RankingStrictForm(backward, m, true);
    StrictUnique(x, y);
  }

  // ---------------------------------------------------------------- not a number

  // Every map has a ranking.
  lemma {:induction false} RankingExists(m: map<ByteString, Score>, reverse: bool) returns (s: seq<Entry>)
    ensures Ranking(s, m, reverse)
    decreases |m|
  {
    if m == map[] {
      s := [];
    } else {
      var k :| k in m;
      var rest := m - {k};
      s := RankingExists(rest, reverse);
      InsertRanks(Entry(k, m[k]), s, rest, reverse);
      s := Insert(Entry(k, m[k]), s, reverse);
      assert rest[k := m[k]] == m;
    }
  }

  lemma ListsMore(s: seq<Entry>, t: seq<Entry>, m: map<ByteString, Score>, k: ByteString)
    requires k in m && Lists(t, m - {k})
    requires s == [Entry(k, m[k])] + t || s == t + [Entry(k, m[k])]
    ensures Lists(s, m)
  {
    var rest := m - {k};
    forall j | j in m
      ensures Entry(j, m[j]) in s
    {
      assert j != k ==> j in rest && Entry(j, rest[j]) in t;
    }
  }

  lemma NaNFits(x: Entry, t: seq<Entry>, reverse: bool)
    requires x.score.NaN? && NoInversion(t, reverse)
    ensures NoInversion([x] + t, reverse) && NoInversion(t + [x], reverse)
  {
  }

  // A NaN may stand at either end of a ranking of the other entries.
  lemma NaNAnywhere(k: ByteString, m: map<ByteString, Score>, t: seq<Entry>, reverse: bool)
    requires k in m && m[k].NaN? && Ranking(t, m - {k}, reverse)
    ensures Ranking([Entry(k, m[k])] + t, m, reverse)
    ensures Ranking(t + [Entry(k, m[k])], m, reverse)
  {
    var x := Entry(k, m[k]);
    NaNFits(x, t, reverse);
    ListsMore([x] + t, t, m, k);
    ListsMore(t + [x], t, m, k);
  }

  /**
    The order is settled by the entries alone exactly when no score is NaN, or there is nothing to order.
   */
  lemma DeterminedIffComparable(m: map<ByteString, Score>, reverse: bool)
    ensures (forall a, b | Ranking(a, m, reverse) && Ranking(b, m, reverse) :: a == b)
            <==> Comparable(m) || |m| <= 1
  {
    if Comparable(m) {
      forall a, b | Ranking(a, m, reverse) && Ranking(b, m, reverse)
        ensures a == b
      {
        RankingUnique(a, b, m, reverse);
      }
    } else {
      var k :| k in m && m[k].NaN?;
      if |m| <= 1 {
        forall a, b | Ranking(a, m, reverse) && Ranking(b, m, reverse)
          ensures a == b
        {
          OnlyEntry(a, m, k);
          OnlyEntry(b, m, k);
        }
      } else {
        var a, b := TwoRankings(m, k, reverse);
      }
    }
  }

  lemma OnlyEntry(a: seq<Entry>, m: map<ByteString, Score>, k: ByteString)
    requires Lists(a, m) && k in m && |m| <= 1
    ensures a == [Entry(k, m[k])]
  {
    assert |m.Keys - {k}| == 0;
    assert forall j | j in m :: j == k;
    assert Entry(k, m[k]) in a;
    assert a[0].member == k && a[|a| - 1].member == k;
  }

  lemma EndsDiffer(x: Entry, t: seq<Entry>)
    requires t != [] && x !in t
    ensures [x] + t != t + [x]
  {
    assert ([x] + t)[0] == x && (t + [x])[0] == t[0];
  }

  lemma OtherEntries(m: map<ByteString, Score>, k: ByteString, t: seq<Entry>)
    requires k in m && |m| > 1 && Lists(t, m - {k})
    ensures t != [] && Entry(k, m[k]) !in t
  {
    assert |m.Keys - {k}| == |m| - 1;
    var j :| j in m.Keys - {k};
    assert Entry(j, (m - {k})[j]) in t;
  }

  lemma TwoRankings(m: map<ByteString, Score>, k: ByteString, reverse: bool)
    returns (a: seq<Entry>, b: seq<Entry>)
    requires k in m && m[k].NaN? && |m| > 1
    ensures Ranking(a, m, reverse) && Ranking(b, m, reverse) && a != b
  {
    var t := RankingExists(m - {k}, reverse);
    var x := Entry(k, m[k]);
    NaNAnywhere(k, m, t, reverse);
    OtherEntries(m, k, t);
    EndsDiffer(x, t);
    a, b := [x] + t, t + [x];
  }
}
