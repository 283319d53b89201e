/**
  Byte strings, and the three functions of Go's strings package that the tracestate code is made of.
 */
module Bytes {

  type Byte = b: nat | b < 0x100
  type ByteString = seq<Byte>

  // Position of the first `b`.
  function IndexOf(s: ByteString, b: Byte): (i: nat)
    requires b in s
    ensures i < |s| && s[i] == b && forall j | 0 <= j < i :: s[j] != b
  {
    if s[0] == b then 0 else 1 + IndexOf(s[1..], b)
  }

  lemma IndexOfIs(s: ByteString, b: Byte, i: nat)
    requires i < |s| && s[i] == b && b !in s[..i]
    ensures IndexOf(s, b) == i
  {
    forall j | 0 <= j < i ensures s[j] != b { assert s[..i][j] == s[j]; }
  }

  // strings.Split for a one-byte separator.
  function Split(s: ByteString, sep: Byte): (parts: seq<ByteString>)
    ensures |parts| >= 1
    ensures forall p | p in parts :: sep !in p
    decreases |s|
  {
    if sep !in s then [s]
    else
      var i := IndexOf(s, sep);
      [s[..i]] + Split(s[i + 1..], sep)
  }

  function Join(parts: seq<ByteString>, sep: Byte): ByteString
    requires |parts| >= 1
  {
    if |parts| == 1 then parts[0] else parts[0] + [sep] + Join(parts[1..], sep)
  }

  lemma CutBack(s: ByteString, i: nat)
    requires i < |s|
    ensures s == s[..i] + [s[i]] + s[i + 1..]
  {}

  lemma {:induction false} JoinSplit(s: ByteString, sep: Byte)
    ensures Join(Split(s, sep), sep) == s
    decreases |s|
  {
    if sep in s {
      var i := IndexOf(s, sep);
      JoinSplit(s[i + 1..], sep);
      JoinFirst(s[..i], Split(s[i + 1..], sep), sep);
      CutBack(s, i);
    }
  }

  lemma JoinFirst(p: ByteString, parts: seq<ByteString>, sep: Byte)
    requires |parts| >= 1
    ensures Join([p] + parts, sep) == p + [sep] + Join(parts, sep)
  {
    assert ([p] + parts)[1..] == parts;
  }

  lemma CutAt(p: ByteString, sep: Byte, rest: ByteString)
    ensures var s := p + [sep] + rest; s[|p|] == sep && s[..|p|] == p && s[|p| + 1..] == rest
  {}

  lemma SplitFirst(p: ByteString, sep: Byte, rest: ByteString)
    requires sep !in p
    ensures Split(p + [sep] + rest, sep) == [p] + Split(rest, sep)
  {
    CutAt(p, sep, rest);
    IndexOfIs(p + [sep] + rest, sep, |p|);
  }

  lemma {:induction false} SplitJoin(parts: seq<ByteString>, sep: Byte)
    requires |parts| >= 1 && forall p | p in parts :: sep !in p
    ensures Split(Join(parts, sep), sep) == parts
  {
    assert parts[0] in parts;
    if |parts| > 1 {
      SplitJoin(parts[1..], sep);
      SplitFirst(parts[0], sep, Join(parts[1..], sep));
      assert [parts[0]] + parts[1..] == parts;
    }
  }

  predicate All(s: ByteString, cutset: set<Byte>) {
    forall i | 0 <= i < |s| :: s[i] in cutset
  }

  // How many leading and trailing bytes strings.Trim removes.
  function LeadCount(s: ByteString, cutset: set<Byte>): (n: nat)
    ensures n <= |s| && (forall i | 0 <= i < n :: s[i] in cutset) && (n < |s| ==> s[n] !in cutset)
  {
    if s == [] || s[0] !in cutset then 0 else 1 + LeadCount(s[1..], cutset)
  }

  function TrailCount(s: ByteString, cutset: set<Byte>): (n: nat)
    ensures n <= |s| && (forall i | |s| - n <= i < |s| :: s[i] in cutset)
    ensures n < |s| ==> s[|s| - n - 1] !in cutset
  {
    if s == [] || s[|s| - 1] !in cutset then 0 else 1 + TrailCount(s[..|s| - 1], cutset)
  }

  // strings.Trim, and what it takes away on either side.
  function Trim(s: ByteString, cutset: set<Byte>): (t: ByteString)
    ensures t != [] ==> t[0] !in cutset && t[|t| - 1] !in cutset
  {
    var rest := s[LeadCount(s, cutset)..];
    rest[..|rest| - TrailCount(rest, cutset)]
  }

  function Lead(s: ByteString, cutset: set<Byte>): (l: ByteString)
    ensures All(l, cutset)
  {
    s[..LeadCount(s, cutset)]
  }

  function Trail(s: ByteString, cutset: set<Byte>): (r: ByteString)
    ensures All(r, cutset)
  {
    var rest := s[LeadCount(s, cutset)..];
    rest[|rest| - TrailCount(rest, cutset)..]
  }

  lemma TrimParts(s: ByteString, cutset: set<Byte>)
    ensures s == Lead(s, cutset) + Trim(s, cutset) + Trail(s, cutset)
  {
    var n := LeadCount(s, cutset);
    var rest := s[n..];
    InThree(s, n, |rest| - TrailCount(rest, cutset));
  }

  lemma InThree(s: ByteString, n: nat, m: nat)
    requires n + m <= |s|
    ensures s == s[..n] + s[n..][..m] + s[n..][m..]
  {}

  // Trim leaves nothing exactly of a string inside the cutset.
  lemma TrimEmpty(s: ByteString, cutset: set<Byte>)
    ensures Trim(s, cutset) == [] <==> All(s, cutset)
  {
    var n := LeadCount(s, cutset);
    if n < |s| {
      assert s[n..][0] == s[n];
    }
  }

  lemma LeadCountIs(s: ByteString, cutset: set<Byte>, n: nat)
    requires n < |s| && (forall i | 0 <= i < n :: s[i] in cutset) && s[n] !in cutset
    ensures LeadCount(s, cutset) == n
  {}

  lemma TrailCountIs(s: ByteString, cutset: set<Byte>, n: nat)
    requires n < |s| && (forall i | |s| - n <= i < |s| :: s[i] in cutset) && s[|s| - n - 1] !in cutset
    ensures TrailCount(s, cutset) == n
  {}

  // Trim finds any core that neither starts nor ends in the cutset.
  lemma TrimCore(l: ByteString, core: ByteString, r: ByteString, cutset: set<Byte>)
    requires All(l, cutset) && All(r, cutset) && core != []
    requires core[0] !in cutset && core[|core| - 1] !in cutset
    ensures Trim(l + core + r, cutset) == core
    ensures Lead(l + core + r, cutset) == l && Trail(l + core + r, cutset) == r
  {
    var s := l + core + r;
    LeadCountIs(s, cutset, |l|);
    assert s[|l|..] == core + r;
    TrailCountIs(core + r, cutset, |r|);
  }
}
