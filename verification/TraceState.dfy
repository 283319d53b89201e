/**
  The tracestate recogniser, which never builds a tree but splits, trims and cuts; and the proof that it accepts
  exactly the texts of the grammar.
 */
module TraceState {
  import opened Bytes
  import opened TraceStateGrammar

  // ---------------------------------------------------------------------------------------------
  // One member, as the recogniser sees it
  // ---------------------------------------------------------------------------------------------

  predicate KeyOk(t: ByteString) {
    if AT in t then
      var i := IndexOf(t, AT);
      KeyPart(t[..i], 241, true) && KeyPart(t[i + 1..], 14, false)
    else
      KeyPart(t, 256, false)
  }

  function KeyOf(t: ByteString): (k: Key)
    requires KeyOk(t)
    ensures WellFormedKey(k) && KeyText(k) == t
  {
    if AT in t then
      var i := IndexOf(t, AT);
      assert t == t[..i] + [AT] + t[i + 1..];
      MultiTenantKey(t[..i], t[i + 1..])
    else
      SimpleKey(t)
  }

  lemma KeyTextOk(k: Key)
    requires WellFormedKey(k)
    ensures KeyOk(KeyText(k))
  {
    var t := KeyText(k);
    match k
    case SimpleKey(name) =>
      forall i | 0 <= i < |t| ensures t[i] != AT {}
    case MultiTenantKey(tenant, system) =>
      assert t[..|tenant|] == tenant && t[|tenant| + 1..] == system;
      forall i | 0 <= i < |tenant| ensures tenant[i] != AT {}
      IndexOfIs(t, AT, |tenant|);
  }

  predicate EntryOk(t: ByteString) {
    EQUALS in t && var i := IndexOf(t, EQUALS); KeyOk(t[..i]) && WellFormedValue(t[i + 1..])
  }

  function EntryOf(t: ByteString): (m: Member)
    requires EntryOk(t)
    ensures m.Entry? && WellFormedMember(m) && MemberText(m) == t
    ensures KeyText(m.key) == t[..IndexOf(t, EQUALS)]
  {
    var i := IndexOf(t, EQUALS);
    assert t == t[..i] + [EQUALS] + t[i + 1..];
    Entry(KeyOf(t[..i]), t[i + 1..])
  }

  lemma EntryTextOk(m: Member)
    requires m.Entry? && WellFormedMember(m)
    ensures EntryOk(MemberText(m))
    ensures MemberText(m)[..IndexOf(MemberText(m), EQUALS)] == KeyText(m.key)
  {
    var k, t := KeyText(m.key), MemberText(m);
    KeyTextChars(m.key);
    KeyTextOk(m.key);
    assert t[..|k|] == k && t[|k| + 1..] == m.value;
    IndexOfIs(t, EQUALS, |k|);
  }

  // A piece between two commas.
  predicate PieceOk(p: ByteString) {
    Trim(p, OWS) == [] || EntryOk(Trim(p, OWS))
  }

  // Its key, if it has one.
  function PieceKeys(p: ByteString): seq<ByteString> {
    var t := Trim(p, OWS);
    if EQUALS in t then [t[..IndexOf(t, EQUALS)]] else []
  }

  predicate PiecesOk(ps: seq<ByteString>) {
    forall i | 0 <= i < |ps| :: PieceOk(ps[i])
  }

  function AllKeys(ps: seq<ByteString>): seq<ByteString> {
    if ps == [] then [] else PieceKeys(ps[0]) + AllKeys(ps[1..])
  }

  // What the recogniser accepts.
  predicate Accepts(s: ByteString) {
    var ps := Split(s, COMMA);
    |ps| <= 32 && PiecesOk(ps) && Distinct(AllKeys(ps))
  }

  // ---------------------------------------------------------------------------------------------
  // From a derivation to pieces
  // ---------------------------------------------------------------------------------------------

  function ToPieces(lead: ByteString, first: Member, rest: seq<Next>, trail: ByteString): (ps: seq<ByteString>)
    ensures |ps| == |rest| + 1
    decreases |rest|
  {
    if rest == [] then [lead + MemberText(first) + trail]
    else [lead + MemberText(first) + rest[0].before]
         + ToPieces(rest[0].after, rest[0].member, rest[1..], trail)
  }

  lemma {:induction false} ToPiecesText(lead: ByteString, first: Member, rest: seq<Next>, trail: ByteString)
    ensures Join(ToPieces(lead, first, rest, trail), COMMA) == lead + MemberText(first) + RestText(rest) + trail
    decreases |rest|
  {
    if rest != [] {
      var n := rest[0];
      var ps := ToPieces(lead, first, rest, trail);
      ToPiecesText(n.after, n.member, rest[1..], trail);
      assert ps[1..] == ToPieces(n.after, n.member, rest[1..], trail);
      Regroup(lead + MemberText(first), n.before, n.after, MemberText(n.member), RestText(rest[1..]), trail);
    }
  }

  lemma Regroup(a: ByteString, b: ByteString, l: ByteString, m: ByteString, d: ByteString, e: ByteString)
    ensures (a + b) + [COMMA] + (l + m + d + e) == a + (b + [COMMA] + l + m + d) + e
  {}

  lemma NoCommaAround(l: ByteString, t: ByteString, r: ByteString)
    requires All(l, OWS) && All(r, OWS) && COMMA !in t
    ensures COMMA !in l + t + r
  {}

  lemma EntryPiece(l: ByteString, m: Member, r: ByteString)
    requires All(l, OWS) && All(r, OWS) && WellFormedMember(m) && m.Entry?
    ensures var p := l + MemberText(m) + r; PieceOk(p) && PieceKeys(p) == KeysOfMember(m)
  {
    EntryText(m);
    EntryTextOk(m);
    TrimCore(l, MemberText(m), r, OWS);
  }

  lemma BlankPiece(l: ByteString, m: ByteString, r: ByteString)
    requires All(l, OWS) && All(r, OWS) && All(m, OWS)
    ensures All(l + m + r, OWS) && Trim(l + m + r, OWS) == []
  {
    TrimEmpty(l + m + r, OWS);
  }

  // A member with whitespace around it is a good piece, with the member's key.
  lemma PaddedPiece(l: ByteString, m: Member, r: ByteString)
    requires All(l, OWS) && All(r, OWS) && WellFormedMember(m)
    ensures var p := l + MemberText(m) + r;
            COMMA !in p && PieceOk(p) && PieceKeys(p) == KeysOfMember(m)
  {
    if m.Entry? {
      EntryText(m);
      NoCommaAround(l, MemberText(m), r);
      EntryPiece(l, m, r);
    } else {
      BlankPiece(l, m.ows, r);
    }
  }

  lemma {:induction false} ToPiecesOk(lead: ByteString, first: Member, rest: seq<Next>, trail: ByteString)
    requires All(lead, OWS) && All(trail, OWS) && WellFormedMember(first)
    requires forall n | n in rest :: WellFormedNext(n)
    ensures var ps := ToPieces(lead, first, rest, trail);
            && (forall p | p in ps :: COMMA !in p)
            && PiecesOk(ps)
            && AllKeys(ps) == KeysOfMember(first) + RestKeys(rest)
    decreases |rest|
  {
    var ps := ToPieces(lead, first, rest, trail);
    if rest == [] {
      PaddedPiece(lead, first, trail);
      assert ps[1..] == [];
    } else {
      var n := rest[0];
      assert WellFormedNext(n);
      PaddedPiece(lead, first, n.before);
      ToPiecesOk(n.after, n.member, rest[1..], trail);
      assert ps[1..] == ToPieces(n.after, n.member, rest[1..], trail);
    }
  }

  lemma PaddedText(lead: ByteString, l: List, trail: ByteString)
    ensures Join(ToPieces(lead, l.first, l.rest, trail), COMMA) == lead + ListText(l) + trail
  {
    ToPiecesText(lead, l.first, l.rest, trail);
    Associate(lead, MemberText(l.first), RestText(l.rest), trail);
  }

  lemma Associate(a: ByteString, b: ByteString, c: ByteString, d: ByteString)
    ensures a + b + c + d == a + (b + c) + d
  {}

  lemma SplitIs(s: ByteString, ps: seq<ByteString>)
    requires |ps| >= 1 && s == Join(ps, COMMA) && forall p | p in ps :: COMMA !in p
    ensures Split(s, COMMA) == ps
  {
    SplitJoin(ps, COMMA);
  }

  lemma HeaderSplit(lead: ByteString, l: List, trail: ByteString, s: ByteString)
    requires IsPadded(lead, l, trail, s)
    ensures Split(s, COMMA) == ToPieces(lead, l.first, l.rest, trail)
  {
    var ps := ToPieces(lead, l.first, l.rest, trail);
    assert s == Join(ps, COMMA) by {
      PaddedText(lead, l, trail);
    }
    assert forall p | p in ps :: COMMA !in p by {
      ToPiecesOk(lead, l.first, l.rest, trail);
    }
    SplitIs(s, ps);
  }

  lemma HeaderPieces(lead: ByteString, l: List, trail: ByteString)
    requires All(lead, OWS) && All(trail, OWS) && WellFormedList(l) && Distinct(ListKeys(l))
    ensures var ps := ToPieces(lead, l.first, l.rest, trail); |ps| <= 32 && PiecesOk(ps) && Distinct(AllKeys(ps))
  {
    ToPiecesOk(lead, l.first, l.rest, trail);
  }

  lemma HeaderAccepted(lead: ByteString, l: List, trail: ByteString, s: ByteString)
    requires IsPadded(lead, l, trail, s)
    ensures Split(s, COMMA) == ToPieces(lead, l.first, l.rest, trail)
    ensures Accepts(s)
  {
    HeaderSplit(lead, l, trail, s);
    HeaderPieces(lead, l, trail);
  }

  // ---------------------------------------------------------------------------------------------
  // From pieces to a derivation
  // ---------------------------------------------------------------------------------------------

  function MemberOf(p: ByteString): (m: Member)
    requires PieceOk(p)
    ensures WellFormedMember(m) && KeysOfMember(m) == PieceKeys(p)
  {
    TrimEmpty(p, OWS);
    if Trim(p, OWS) == [] then Blank(p) else EntryOf(Trim(p, OWS))
  }

  function LeadOf(p: ByteString): (l: ByteString)
    ensures All(l, OWS)
  {
    if Trim(p, OWS) == [] then [] else Lead(p, OWS)
  }

  function TrailOf(p: ByteString): (r: ByteString)
    ensures All(r, OWS)
  {
    if Trim(p, OWS) == [] then [] else Trail(p, OWS)
  }

  lemma PieceText(p: ByteString)
    requires PieceOk(p)
    ensures p == LeadOf(p) + MemberText(MemberOf(p)) + TrailOf(p)
  {
    TrimParts(p, OWS);
  }

  function RestOf(before: ByteString, ps: seq<ByteString>): (rest: seq<Next>)
    requires All(before, OWS) && PiecesOk(ps)
    ensures |rest| == |ps| && (forall n | n in rest :: WellFormedNext(n)) && RestKeys(rest) == AllKeys(ps)
    decreases |ps|
  {
    if ps == [] then [] else [Next(before, LeadOf(ps[0]), MemberOf(ps[0]))] + RestOf(TrailOf(ps[0]), ps[1..])
  }

  lemma RestTextStep(n: Next, rest: seq<Next>)
    ensures RestText([n] + rest) == n.before + [COMMA] + n.after + MemberText(n.member) + RestText(rest)
  {
    assert ([n] + rest)[1..] == rest;
  }

  function HeadText(p: ByteString): ByteString
    requires PieceOk(p)
  {
    LeadOf(p) + MemberText(MemberOf(p))
  }

  // The text of the pieces that follow the whitespace `before`.
  function TailText(before: ByteString, ps: seq<ByteString>): ByteString
    requires PiecesOk(ps)
    decreases |ps|
  {
    if ps == [] then before
    else before + [COMMA] + (HeadText(ps[0]) + TailText(TrailOf(ps[0]), ps[1..]))
  }

  // The whitespace at the end of it.
  function LastTrail(before: ByteString, ps: seq<ByteString>): ByteString
    decreases |ps|
  {
    if ps == [] then before else LastTrail(TrailOf(ps[0]), ps[1..])
  }

  lemma {:induction false} LastTrailIs(before: ByteString, ps: seq<ByteString>)
    ensures LastTrail(before, ps) == if ps == [] then before else TrailOf(ps[|ps| - 1])
    decreases |ps|
  {
    if |ps| == 1 {
      assert LastTrail(TrailOf(ps[0]), ps[1..]) == TrailOf(ps[0]);
    } else if |ps| > 1 {
      var last := ps[|ps| - 1];
      assert ps[1..][|ps| - 2] == last;
      LastTrailIs(TrailOf(ps[0]), ps[1..]);
    }
  }

  lemma {:induction false} JoinText(ps: seq<ByteString>)
    requires |ps| >= 1 && PiecesOk(ps)
    ensures Join(ps, COMMA) == HeadText(ps[0]) + TailText(TrailOf(ps[0]), ps[1..])
  {
    PieceText(ps[0]);
    if |ps| > 1 {
      JoinText(ps[1..]);
      Prefixed(HeadText(ps[0]), TrailOf(ps[0]), [COMMA], Join(ps[1..], COMMA));
    }
  }

  lemma Prefixed(a: ByteString, b: ByteString, c: ByteString, d: ByteString)
    ensures a + b + c + d == a + (b + c + d)
  {}

  lemma {:induction false} TailOfText(before: ByteString, ps: seq<ByteString>)
    requires All(before, OWS) && PiecesOk(ps)
    ensures TailText(before, ps) == RestText(RestOf(before, ps)) + LastTrail(before, ps)
    decreases |ps|
  {
    if ps != [] {
      var after, rest := TrailOf(ps[0]), RestOf(TrailOf(ps[0]), ps[1..]);
      TailOfText(after, ps[1..]);
      RestTextStep(Next(before, LeadOf(ps[0]), MemberOf(ps[0])), rest);
      RegroupTail(before, LeadOf(ps[0]), MemberText(MemberOf(ps[0])), RestText(rest), LastTrail(after, ps[1..]));
    }
  }

  lemma RegroupTail(b: ByteString, l: ByteString, m: ByteString, d: ByteString, e: ByteString)
    ensures b + [COMMA] + ((l + m) + (d + e)) == (b + [COMMA] + l + m + d) + e
  {}

  function ListOf(ps: seq<ByteString>): (l: List)
    requires 1 <= |ps| <= 32 && PiecesOk(ps)
    ensures WellFormedList(l) && ListKeys(l) == AllKeys(ps)
  {
    List(MemberOf(ps[0]), RestOf(TrailOf(ps[0]), ps[1..]))
  }

  lemma PiecesList(ps: seq<ByteString>)
    requires 1 <= |ps| <= 32 && PiecesOk(ps)
    ensures Join(ps, COMMA) == LeadOf(ps[0]) + ListText(ListOf(ps)) + TrailOf(ps[|ps| - 1])
  {
    JoinText(ps);
    TailOfText(TrailOf(ps[0]), ps[1..]);
    LastTrailIs(TrailOf(ps[0]), ps[1..]);
    Around(LeadOf(ps[0]), MemberText(MemberOf(ps[0])), RestText(RestOf(TrailOf(ps[0]), ps[1..])),
           TrailOf(ps[|ps| - 1]));
  }

  lemma Around(a: ByteString, b: ByteString, c: ByteString, d: ByteString)
    ensures a + b + (c + d) == a + (b + c) + d
  {}

  lemma AcceptedHeader(s: ByteString)
    requires Accepts(s)
    ensures var ps := Split(s, COMMA);
            IsPadded(LeadOf(ps[0]), ListOf(ps), TrailOf(ps[|ps| - 1]), s)
  {
    JoinSplit(s, COMMA);
    PiecesList(Split(s, COMMA));
  }

  // The recogniser accepts exactly the header values of the grammar.
  lemma AcceptsIffHeader(s: ByteString)
    ensures Accepts(s) <==> IsHeader(s)
  {
    if Accepts(s) { AcceptedHeader(s); }
    if IsHeader(s) {
      var lead, l, trail :| IsPadded(lead, l, trail, s);
      HeaderAccepted(lead, l, trail, s);
    }
  }

  // ---------------------------------------------------------------------------------------------
  // Without whitespace at the edges
  // ---------------------------------------------------------------------------------------------

  // The first member does not start, and the last does not end, with whitespace, unless it is blank.
  predicate TightEdges(s: ByteString) {
    var ps := Split(s, COMMA);
    LeadOf(ps[0]) == [] && TrailOf(ps[|ps| - 1]) == []
  }

  lemma PaddedEdges(l: ByteString, m: Member, r: ByteString)
    requires All(l, OWS) && All(r, OWS) && WellFormedMember(m)
    ensures var p := l + MemberText(m) + r; (l == [] ==> LeadOf(p) == []) && (r == [] ==> TrailOf(p) == [])
  {
    if m.Entry? {
      EntryText(m);
      TrimCore(l, MemberText(m), r, OWS);
    } else {
      TrimEmpty(l + MemberText(m) + r, OWS);
    }
  }

  lemma ToPiecesLast(lead: ByteString, first: Member, rest: seq<Next>)
    requires rest != []
    ensures var ps, tail := ToPieces(lead, first, rest, []), ToPieces(rest[0].after, rest[0].member, rest[1..], []);
            ps[|ps| - 1] == tail[|tail| - 1]
  {}

  lemma {:induction false} LastEdge(lead: ByteString, first: Member, rest: seq<Next>)
    requires All(lead, OWS) && WellFormedMember(first) && forall n | n in rest :: WellFormedNext(n)
    ensures var ps := ToPieces(lead, first, rest, []); TrailOf(ps[|ps| - 1]) == []
    decreases |rest|
  {
    if rest == [] {
      PaddedEdges(lead, first, []);
    } else {
      assert WellFormedNext(rest[0]);
      LastEdge(rest[0].after, rest[0].member, rest[1..]);
      ToPiecesLast(lead, first, rest);
    }
  }

  lemma ListIsTight(l: List)
    requires WellFormedList(l)
    ensures var ps := ToPieces([], l.first, l.rest, []); LeadOf(ps[0]) == [] && TrailOf(ps[|ps| - 1]) == []
  {
    LastEdge([], l.first, l.rest);
    if l.rest == [] {
      PaddedEdges([], l.first, []);
    } else {
      assert WellFormedNext(l.rest[0]);
      PaddedEdges([], l.first, l.rest[0].before);
    }
  }

  lemma NoPadding(s: ByteString)
    ensures [] + s + [] == s
  {}

  // The bare list of the grammar has no room for whitespace at its edges, the recogniser does.
  lemma ListIffTight(s: ByteString)
    ensures IsList(s) <==> Accepts(s) && TightEdges(s)
  {
    if IsList(s) {
      ListAccepted(s);
    }
    if Accepts(s) && TightEdges(s) {
      TightIsList(s);
    }
  }

  lemma TightIsList(s: ByteString)
    requires Accepts(s) && TightEdges(s)
    ensures IsList(s)
  {
    var l := ListOf(Split(s, COMMA));
    AcceptedHeader(s);
    NoPadding(ListText(l));
    assert WellFormedList(l) && Distinct(ListKeys(l)) && ListText(l) == s;
  }

  lemma ListAccepted(s: ByteString)
    requires IsList(s)
    ensures Accepts(s) && TightEdges(s)
  {
    var l :| WellFormedList(l) && Distinct(ListKeys(l)) && ListText(l) == s;
    NoPadding(s);
    HeaderAccepted([], l, [], s);
    ListIsTight(l);
  }

  // " a=b"
  function Sample(): ByteString {
    [SPACE, 0x61, EQUALS, 0x62]
  }

  function SampleList(): List {
    List(Entry(SimpleKey([0x61]), [0x62]), [])
  }

  lemma SampleIsPadded()
    ensures MemberText(SampleList().first) == [0x61, EQUALS, 0x62]
    ensures IsPadded([SPACE], SampleList(), [], Sample())
  {
    assert MemberText(SampleList().first) == [0x61, EQUALS, 0x62];
    assert Sample() == [SPACE] + ListText(SampleList()) + [];
  }

  lemma SampleIsNotTight()
    requires Split(Sample(), COMMA) == [Sample()]
    ensures !TightEdges(Sample())
  {
    SampleIsPadded();
    EntryText(SampleList().first);
    TrimCore([SPACE], MemberText(SampleList().first), [], OWS);
    assert Sample() == [SPACE] + MemberText(SampleList().first) + [];
  }

  // It is accepted although it is no list of the grammar.
  lemma LeadingSpaceAccepted()
    ensures Accepts(Sample()) && IsHeader(Sample()) && !IsList(Sample())
  {
    SampleIsPadded();
    HeaderAccepted([SPACE], SampleList(), [], Sample());
    SamplePieces();
    SampleIsNotTight();
    ListIffTight(Sample());
  }

  lemma SamplePieces()
    ensures ToPieces([SPACE], SampleList().first, SampleList().rest, []) == [Sample()]
  {
    SampleIsPadded();
    assert [SPACE] + MemberText(SampleList().first) + [] == Sample();
  }

  // ---------------------------------------------------------------------------------------------
  // The recogniser
  // ---------------------------------------------------------------------------------------------

  predicate IsLowercaseAlpha(c: Byte)
    ensures IsLowercaseAlpha(c) <==> LcAlpha(c)
  {
    'a' as int <= c <= 'z' as int
  }

  predicate IsDigit(c: Byte)
    ensures IsDigit(c) <==> Digit(c)
  {
    '0' as int <= c <= '9' as int
  }

  predicate IsKeyChar(c: Byte)
    ensures IsKeyChar(c) <==> KeyChar(c)
  {
    || IsLowercaseAlpha(c) || IsDigit(c)
    || c == '_' as int || c == '-' as int || c == '*' as int || c == '/' as int
  }

  predicate IsValueChar(c: Byte)
    ensures IsValueChar(c) <==> Chr(c)
  {
    0x20 <= c <= 0x7E && c != ',' as int && c != '=' as int
  }

  predicate IsValueLast(c: Byte)
    ensures IsValueLast(c) <==> NonBlank(c)
  {
    0x21 <= c <= 0x7E && c != ',' as int && c != '=' as int
  }

  method IsValidKeyPart(part: ByteString, maxLength: nat, firstCanBeDigit: bool) returns (ok: bool)
    ensures ok <==> KeyPart(part, maxLength, firstCanBeDigit)
  {
    if |part| == 0 || |part| > maxLength {
      return false;
    }
    if !IsLowercaseAlpha(part[0]) && (!firstCanBeDigit || !IsDigit(part[0])) {
      return false;
    }
    var i := 1;
    while i < |part|
      invariant 1 <= i <= |part|
      invariant forall j | 1 <= j < i :: KeyChar(part[j])
    {
      if !IsKeyChar(part[i]) {
        return false;
      }
      i := i + 1;
    }
    return true;
  }

  method IsValidKey(key: ByteString) returns (ok: bool)
    ensures ok <==> exists k :: WellFormedKey(k) && KeyText(k) == key
    ensures ok <==> KeyOk(key)
  {
    if AT in key {
      var i := IndexOf(key, AT);
      ok := IsValidKeyPart(key[..i], 241, true);
      if ok {
        ok := IsValidKeyPart(key[i + 1..], 14, false);
      }
    } else {
      ok := IsValidKeyPart(key, 256, false);
    }
    forall k | WellFormedKey(k) && KeyText(k) == key ensures KeyOk(key) { KeyTextOk(k); }
    if ok {
      assert KeyText(KeyOf(key)) == key;
    }
  }

  method IsValidValue(value: ByteString) returns (ok: bool)
    ensures ok <==> WellFormedValue(value)
  {
    if |value| == 0 || |value| > 256 {
      return false;
    }
    var i := 0;
    while i < |value| - 1
      invariant 0 <= i <= |value| - 1
      invariant forall j | 0 <= j < i :: Chr(value[j])
    {
      if !IsValueChar(value[i]) {
        return false;
      }
      i := i + 1;
    }
    return IsValueLast(value[|value| - 1]);
  }

  lemma {:induction false} AllKeysConcat(a: seq<ByteString>, b: seq<ByteString>)
    ensures AllKeys(a + b) == AllKeys(a) + AllKeys(b)
  {
    if a == [] {
      assert [] + b == b;
    } else {
      calc {
        AllKeys(a + b);
        { assert (a + b)[0] == a[0] && (a + b)[1..] == a[1..] + b; }
        PieceKeys(a[0]) + AllKeys(a[1..] + b);
        { AllKeysConcat(a[1..], b); }
        PieceKeys(a[0]) + (AllKeys(a[1..]) + AllKeys(b));
        { Concat3(PieceKeys(a[0]), AllKeys(a[1..]), AllKeys(b)); }
        AllKeys(a) + AllKeys(b);
      }
    }
  }

  lemma Concat3(a: seq<ByteString>, b: seq<ByteString>, c: seq<ByteString>)
    ensures a + (b + c) == (a + b) + c
  {}

  lemma AllKeysSnoc(ps: seq<ByteString>, p: ByteString)
    ensures AllKeys(ps + [p]) == AllKeys(ps) + PieceKeys(p)
  {
    AllKeysConcat(ps, [p]);
    assert [p][1..] == [];
  }

  lemma RepeatedIsNotDistinct(before: seq<ByteString>, key: ByteString, after: seq<ByteString>)
    requires key in before
    ensures !Distinct(before + [key] + after)
  {
    var keys := before + [key] + after;
    var j :| 0 <= j < |before| && before[j] == key;
    assert keys[j] == keys[|before|];
  }

  lemma RepeatedBetween(before: seq<ByteString>, p: ByteString, after: seq<ByteString>, key: ByteString)
    requires PieceKeys(p) == [key] && key in AllKeys(before)
    ensures !Distinct(AllKeys((before + [p]) + after))
  {
    AllKeysConcat(before + [p], after);
    AllKeysSnoc(before, p);
    RepeatedIsNotDistinct(AllKeys(before), key, AllKeys(after));
  }

  lemma RepeatedKey(ps: seq<ByteString>, i: nat, key: ByteString)
    requires i < |ps| && PieceKeys(ps[i]) == [key] && key in AllKeys(ps[..i])
    ensures !Distinct(AllKeys(ps))
  {
    AroundPiece(ps, i);
    RepeatedBetween(ps[..i], ps[i], ps[i + 1..], key);
  }

  lemma AroundPiece(ps: seq<ByteString>, i: nat)
    requires i < |ps|
    ensures ps == (ps[..i] + [ps[i]]) + ps[i + 1..] && ps[..i + 1] == ps[..i] + [ps[i]]
  {}

  lemma DistinctSnoc(keys: seq<ByteString>, key: ByteString)
    requires Distinct(keys) && key !in keys
    ensures Distinct(keys + [key])
  {}

  // The keys met so far are distinct and are the ones in `keys`.
  ghost predicate Seen(ps: seq<ByteString>, i: nat, keys: set<ByteString>) {
    && i <= |ps|
    && (forall j | 0 <= j < i :: PieceOk(ps[j]))
    && Distinct(AllKeys(ps[..i]))
    && forall k :: k in keys <==> k in AllKeys(ps[..i])
  }

  lemma SeenBlank(ps: seq<ByteString>, i: nat, keys: set<ByteString>)
    requires Seen(ps, i, keys) && i < |ps| && Trim(ps[i], OWS) == []
    ensures Seen(ps, i + 1, keys)
  {
    AroundPiece(ps, i);
    AllKeysSnoc(ps[..i], ps[i]);
  }

  lemma SeenEntry(ps: seq<ByteString>, i: nat, keys: set<ByteString>, key: ByteString)
    requires Seen(ps, i, keys) && i < |ps| && PieceOk(ps[i]) && PieceKeys(ps[i]) == [key] && key !in keys
    ensures Seen(ps, i + 1, keys + {key})
  {
    AroundPiece(ps, i);
    AllKeysSnoc(ps[..i], ps[i]);
    DistinctSnoc(AllKeys(ps[..i]), key);
  }

  // The checks on one non-blank member, up to its key.
  method CheckMember(member: ByteString) returns (ok: bool, key: ByteString)
    ensures ok <==> EntryOk(member)
    ensures ok ==> key == member[..IndexOf(member, EQUALS)]
  {
    key := [];
    if EQUALS !in member {
      return false, key;
    }
    var cut := IndexOf(member, EQUALS);
    key := member[..cut];
    ok := IsValidKey(key);
    if ok {
      ok := IsValidValue(member[cut + 1..]);
    }
  }

  // The loop over the pieces.
  method ScanMembers(ps: seq<ByteString>) returns (ok: bool)
    ensures ok <==> PiecesOk(ps) && Distinct(AllKeys(ps))
  {
    var keys: set<ByteString> := {};
    var i := 0;
    while i < |ps|
      invariant Seen(ps, i, keys)
    {
      var member := Trim(ps[i], OWS);
      if member == [] {
        SeenBlank(ps, i, keys);
      } else {
        var entryOk, key := CheckMember(member);
        if !entryOk {
          return false;
        }
        if key in keys {
          RepeatedKey(ps, i, key);
          return false;
        }
        SeenEntry(ps, i, keys, key);
        keys := keys + {key};
      }
      i := i + 1;
    }
    assert ps[..|ps|] == ps;
    return true;
  }

  lemma EmptyAccepted()
    ensures Accepts([])
  {
    assert AllKeys([[]]) == PieceKeys([]) + AllKeys([[]][1..]);
  }

  method IsValidTraceState(traceState: ByteString) returns (ok: bool)
    ensures ok <==> IsHeader(traceState)
  {
    AcceptsIffHeader(traceState);
    if traceState == [] {
      EmptyAccepted();
      return true;
    }
    var ps := Split(traceState, COMMA);
    if |ps| > 32 {
      return false;
    }
    ok := ScanMembers(ps);
  }
}
