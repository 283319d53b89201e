/**
  The core's response tree and its conversion to an untyped Go value. A nil string is None; a container
  whose element pointer is nil is NilContainer.
 */
module Responses {

  import opened Wrappers
  import opened Bytes
  import opened SortedSet
  import opened Converters

  datatype Response =
    | Null
    | Text(text: Option<ByteString>)
    | Number(number: int)
    | Double(score: Score)
    | Flag(flag: bool)
    | Array(items: seq<Response>)
    | Pairs(pairs: seq<Pair>)
    | Sets(members: seq<Option<ByteString>>)
    | NilContainer(kind: Kind)
    | OkReply
    | Error(text: Option<ByteString>)
    | UnknownType

  datatype Kind = ArrayKind | MapKind | SetKind

  datatype Pair = Pair(key: Option<ByteString>, value: Response)

  function OkText(): ByteString {
    [79, 75]
  }

  function ParseString(text: Option<ByteString>): Val {
    if text.Some? then Str(text.value) else Nil
  }

  // parseInterface
  function Parse(r: Response): Outcome<Val>
  {
    match r
    case Null => Ok(Nil)
    case Text(text) => Ok(ParseString(text))
    case Number(n) => Ok(Int(n))
    case Double(x) => Ok(Float(x))
    case Flag(b) => Ok(Boolean(b))
    case Array(items) =>
      (match ParseItems(items) case Ok(vs) => Ok(Slice(AnyT, vs)) case Err => Err case Panic => Panic)
    case Pairs(pairs) =>
      (match ParsePairs(pairs) case Ok(m) => Ok(Dict(AnyT, m)) case Err => Err case Panic => Panic)
    case NilContainer(_) => Ok(Nil)
    case Sets(members) =>
      if None in members then Panic else Ok(Members(set m | m in members && m.Some? :: m.value))
    case OkReply => Ok(Str(OkText()))
    case Error(text) => if text.Some? then Ok(Problem(text.value)) else Err
    case UnknownType => Err
  }

  // The loop of parseArray; the first failure ends it.
  function ParseItems(items: seq<Response>): Outcome<seq<Val>>
  {
    if items == [] then Ok([])
    else
      match ParseItems(items[..|items| - 1])
      case Err => Err
      case Panic => Panic
      case Ok(vs) =>
        match Parse(items[|items| - 1])
        case Err => Err
        case Panic => Panic
        case Ok(v) => Ok(vs + [v])
  }

  // The value is parsed before the key is asserted to be a string.
  function ParsePair(p: Pair): (r: Outcome<Val>)
    ensures r.Ok? ==> p.key.Some?
  {
    match Parse(p.value)
    case Err => Err
    case Panic => Panic
    case Ok(v) => if p.key.Some? then Ok(v) else Panic
  }

  // The loop of parseMap; a later key wins.
  function ParsePairs(pairs: seq<Pair>): Outcome<map<ByteString, Val>>
  {
    if pairs == [] then Ok(map[])
    else
      var last := pairs[|pairs| - 1];
      match ParsePairs(pairs[..|pairs| - 1])
      case Err => Err
      case Panic => Panic
      case Ok(m) =>
        match ParsePair(last)
        case Err => Err
        case Panic => Panic
        case Ok(v) => Ok(m[last.key.value := v])
  }

  ghost predicate SoundPair(p: Pair) {
    p.key.Some? && Sound(p.value)
  }

  // Known types, and no nil pointer where a string is needed.
  ghost predicate Sound(r: Response) {
    match r
    case Array(items) => forall i | 0 <= i < |items| :: Sound(items[i])
    case Pairs(pairs) => forall i | 0 <= i < |pairs| :: SoundPair(pairs[i])
    case Sets(members) => None !in members
    case Error(text) => text.Some?
    case UnknownType => false
    case _ => true
  }

  // Parsing succeeds exactly on sound responses, and always gives an untyped value.
  lemma {:induction false} ParseOkIffSound(r: Response)
    ensures Parse(r).Ok? <==> Sound(r)
    ensures Parse(r).Ok? ==> Untyped(Parse(r).value)
  {
    match r
    case Array(items) => ItemsOkIffSound(items);
    case Pairs(pairs) => PairsOkIffSound(pairs);
    case _ =>
  }

  // An array keeps its length and its order.
  lemma {:induction false} ItemsOkIffSound(items: seq<Response>)
    ensures ParseItems(items).Ok? <==> forall i | 0 <= i < |items| :: Sound(items[i])
    ensures ParseItems(items).Ok? ==>
              && |ParseItems(items).value| == |items|
              && forall i | 0 <= i < |items| ::
                   && Untyped(ParseItems(items).value[i])
                   && Parse(items[i]) == Ok(ParseItems(items).value[i])
  {
    if items != [] {
      ItemsOkIffSound(items[..|items| - 1]);
      ParseOkIffSound(items[|items| - 1]);
    }
  }

  lemma {:induction false} PairOkIffSound(p: Pair)
    ensures ParsePair(p).Ok? <==> SoundPair(p)
    ensures ParsePair(p).Ok? ==> Untyped(ParsePair(p).value) && Parse(p.value) == ParsePair(p)
  {
    ParseOkIffSound(p.value);
  }

  lemma {:induction false} PairsOkIffSound(pairs: seq<Pair>)
    ensures ParsePairs(pairs).Ok? <==> forall i | 0 <= i < |pairs| :: SoundPair(pairs[i])
    ensures ParsePairs(pairs).Ok? ==> forall k | k in ParsePairs(pairs).value :: Untyped(ParsePairs(pairs).value[k])
  {
    if pairs != [] {
      PairsOkIffSound(pairs[..|pairs| - 1]);
      PairOkIffSound(pairs[|pairs| - 1]);
    }
  }

  // ---------------------------------------------------------------- what a response stands for

  // No later pair has the key of pair i.
  ghost predicate IsLast(pairs: seq<Pair>, i: nat)
    requires i < |pairs|
  {
    forall j | i < j < |pairs| :: pairs[j].key != pairs[i].key
  }

  ghost predicate DenotesPair(p: Pair, v: Val) {
    Denotes(p.value, v)
  }

  // `entries` has exactly the keys sent, each with what its last occurrence stands for.
  ghost predicate DenotesPairs(pairs: seq<Pair>, entries: map<ByteString, Val>) {
    && (forall i | 0 <= i < |pairs| :: SoundPair(pairs[i]) && pairs[i].key.value in entries)
    && (forall k | k in entries :: exists i :: 0 <= i < |pairs| && pairs[i].key == Some(k))
    && (forall i | 0 <= i < |pairs| && IsLast(pairs, i) :: DenotesPair(pairs[i], entries[pairs[i].key.value]))
  }

  // v is what response r stands for.
  ghost predicate Denotes(r: Response, v: Val) {
    match r
    case Null => v == Nil
    case Text(text) => if text.None? then v == Nil else v == Str(text.value)
    case Number(n) => v == Int(n)
    case Double(x) => v == Float(x)
    case Flag(b) => v == Boolean(b)
    case Array(items) =>
      && v.Slice? && v.elem == AnyT && |v.items| == |items|
      && forall i | 0 <= i < |items| :: Denotes(items[i], v.items[i])
    case Pairs(pairs) => v.Dict? && v.elem == AnyT && DenotesPairs(pairs, v.entries)
    case Sets(members) =>
      && v.Members? && None !in members
      && forall m :: m in v.members <==> Some(m) in members
    case NilContainer(_) => v == Nil
    case OkReply => v == Str([0x4F, 0x4B])
    case Error(text) => text.Some? && v == Problem(text.value)
    case UnknownType => false
  }

  lemma {:induction false} ParsedDenotes(r: Response)
    requires Parse(r).Ok?
    ensures Denotes(r, Parse(r).value)
  {
    match r
    case Array(items) => ItemsDenote(items);
    case Pairs(pairs) => PairsDenote(pairs);
    case _ =>
  }

  lemma {:induction false} ItemsDenote(items: seq<Response>)
    requires ParseItems(items).Ok?
    ensures |ParseItems(items).value| == |items|
    ensures forall i | 0 <= i < |items| :: Denotes(items[i], ParseItems(items).value[i])
  {
    if items != [] {
      ItemsDenote(items[..|items| - 1]);
      ParsedDenotes(items[|items| - 1]);
    }
  }

  lemma {:induction false} PairDenotes(p: Pair)
    requires ParsePair(p).Ok?
    ensures DenotesPair(p, ParsePair(p).value)
  {
    ParsedDenotes(p.value);
  }

  lemma {:induction false} PairsDenote(pairs: seq<Pair>)
    requires ParsePairs(pairs).Ok?
    ensures DenotesPairs(pairs, ParsePairs(pairs).value)
  {
    if pairs != [] {
      var front, last := pairs[..|pairs| - 1], pairs[|pairs| - 1];
      PairsDenote(front);
      PairDenotes(last);
      PairOkIffSound(last);
      OneMorePair(front, ParsePairs(front).value, last, ParsePair(last).value);
      assert front + [last] == pairs;
    }
  }

  // A pair sent last adds its key, or replaces what the key stood for.
  lemma OneMorePair(front: seq<Pair>, entries: map<ByteString, Val>, last: Pair, v: Val)
    requires DenotesPairs(front, entries) && SoundPair(last) && DenotesPair(last, v)
    ensures DenotesPairs(front + [last], entries[last.key.value := v])
  {
    var pairs, after := front + [last], entries[last.key.value := v];
    forall k | k in after
      ensures exists i :: 0 <= i < |pairs| && pairs[i].key == Some(k)
    {
      if k == last.key.value {
        assert pairs[|front|].key == Some(k);
      } else {
        var i :| 0 <= i < |front| && front[i].key == Some(k);
        assert pairs[i].key == Some(k);
      }
    }
    forall i | 0 <= i < |pairs| && IsLast(pairs, i)
      ensures DenotesPair(pairs[i], after[pairs[i].key.value])
    {
      if i < |front| {
        assert pairs[|front|].key != pairs[i].key;
        StillLast(front, last, i);
      }
    }
  }

  lemma StillLast(front: seq<Pair>, last: Pair, i: nat)
    requires i < |front| && IsLast(front + [last], i)
    ensures IsLast(front, i)
  {
    forall j | i < j < |front|
      ensures front[j].key != front[i].key
    {
      assert (front + [last])[j].key != (front + [last])[i].key;
    }
  }

  lemma {:induction false} LastExists(pairs: seq<Pair>, k: ByteString, i: nat) returns (l: nat)
    requires i < |pairs| && pairs[i].key == Some(k)
    ensures l < |pairs| && pairs[l].key == Some(k) && IsLast(pairs, l)
    decreases |pairs| - i
  {
    if j :| i < j < |pairs| && pairs[j].key == Some(k) {
      l := LastExists(pairs, k, j);
    } else {
      l := i;
    }
  }

  lemma {:induction false} DenotedUnique(r: Response, v: Val, w: Val)
    requires Denotes(r, v) && Denotes(r, w)
    ensures v == w
  {
    match r
    case Array(items) =>
      forall i | 0 <= i < |items|
        ensures v.items[i] == w.items[i]
      {
        DenotedUnique(items[i], v.items[i], w.items[i]);
      }
    case Pairs(pairs) => DenotedPairsUnique(pairs, v.entries, w.entries);
    case Sets(members) => assert v.members == w.members;
    case _ =>
  }

  lemma {:induction false} DenotedPairUnique(p: Pair, v: Val, w: Val)
    requires DenotesPair(p, v) && DenotesPair(p, w)
    ensures v == w
  {
    DenotedUnique(p.value, v, w);
  }

  lemma {:induction false} DenotedPairsUnique(pairs: seq<Pair>, v: map<ByteString, Val>, w: map<ByteString, Val>)
    requires DenotesPairs(pairs, v) && DenotesPairs(pairs, w)
    ensures v == w
  {
    forall k
      ensures k in v <==> k in w
      ensures k in v && k in w ==> v[k] == w[k]
    {
      if k in v || k in w {
        var i :| 0 <= i < |pairs| && pairs[i].key == Some(k);
        var l := LastExists(pairs, k, i);
        DenotedPairUnique(pairs[l], v[k], w[k]);
      }
    }
  }

  lemma {:induction false} DenotesIsSound(r: Response, v: Val)
    requires Denotes(r, v)
    ensures Sound(r)
  {
    match r
    case Array(items) =>
      forall i | 0 <= i < |items|
        ensures Sound(items[i])
      {
        DenotesIsSound(items[i], v.items[i]);
      }
    case _ =>
  }

  // Parsing succeeds with v exactly when v is what the response stands for.
  lemma ParseIffDenotes(r: Response, v: Val)
    ensures Parse(r) == Ok(v) <==> Denotes(r, v)
  {
    if Parse(r) == Ok(v) {
      ParsedDenotes(r);
    }
    if Denotes(r, v) {
      DenotesIsSound(r, v);
      ParseOkIffSound(r);
      ParsedDenotes(r);
      DenotedUnique(r, v, Parse(r).value);
    }
  }

  // ---------------------------------------------------------------- how a response fails

  // Some map key or set member is a missing string.
  ghost predicate MissesString(r: Response) {
    match r
    case Array(items) => exists i :: 0 <= i < |items| && MissesString(items[i])
    case Pairs(pairs) => exists i :: 0 <= i < |pairs| && PairMissesString(pairs[i])
    case Sets(members) => None in members
    case _ => false
  }

  ghost predicate PairMissesString(p: Pair) {
    p.key.None? || MissesString(p.value)
  }

  // Some part has an unknown type, or is an error without a message.
  ghost predicate HasBadPart(r: Response) {
    match r
    case Array(items) => exists i :: 0 <= i < |items| && HasBadPart(items[i])
    case Pairs(pairs) => exists i :: 0 <= i < |pairs| && PairHasBadPart(pairs[i])
    case Error(text) => text.None?
    case UnknownType => true
    case _ => false
  }

  ghost predicate PairHasBadPart(p: Pair) {
    HasBadPart(p.value)
  }

  // A panic comes from a missing string, an error from a bad part.
  lemma {:induction false} FailureHasReason(r: Response)
    ensures Parse(r).Panic? ==> MissesString(r)
    ensures Parse(r).Err? ==> HasBadPart(r)
  {
    match r
    case Array(items) => ItemsFailure(items);
    case Pairs(pairs) => PairsFailure(pairs);
    case _ =>
  }

  lemma {:induction false} ItemsFailure(items: seq<Response>)
    ensures ParseItems(items).Panic? ==> exists i :: 0 <= i < |items| && MissesString(items[i])
    ensures ParseItems(items).Err? ==> exists i :: 0 <= i < |items| && HasBadPart(items[i])
  {
    if items != [] {
      ItemsFailure(items[..|items| - 1]);
      FailureHasReason(items[|items| - 1]);
    }
  }

  lemma {:induction false} PairFailure(p: Pair)
    ensures ParsePair(p).Panic? ==> PairMissesString(p)
    ensures ParsePair(p).Err? ==> PairHasBadPart(p)
  {
    FailureHasReason(p.value);
  }

  lemma {:induction false} PairsFailure(pairs: seq<Pair>)
    ensures ParsePairs(pairs).Panic? ==> exists i :: 0 <= i < |pairs| && PairMissesString(pairs[i])
    ensures ParsePairs(pairs).Err? ==> exists i :: 0 <= i < |pairs| && PairHasBadPart(pairs[i])
  {
    if pairs != [] {
      PairsFailure(pairs[..|pairs| - 1]);
      PairFailure(pairs[|pairs| - 1]);
    }
  }
}
