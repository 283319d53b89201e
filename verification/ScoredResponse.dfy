/**
  The handler of a scored response, from the response tree to the ordered entries.
 */
module ScoredResponse {

  import opened Wrappers
  import opened Bytes
  import opened SortedSet
  import opened Converters
  import opened Responses

  // The keys of m are the keys sent, and the last pair sent with each key carries its score.
  ghost predicate Sends(pairs: seq<Pair>, m: map<ByteString, Score>) {
    && (forall k :: k in m <==> exists i :: 0 <= i < |pairs| && pairs[i].key == Some(k))
    && (forall i | 0 <= i < |pairs| && IsLast(pairs, i) && pairs[i].key.Some? ::
          pairs[i].key.value in m && pairs[i].value == Double(m[pairs[i].key.value]))
  }

  function ScoreConverter(): Converter {
    MapConverter(FloatT, None, false)
  }

  function Scores(entries: map<ByteString, Val>): map<ByteString, Score>
    requires forall k | k in entries :: entries[k].Float?
  {
    map k | k in entries :: entries[k].score
  }

  // The parsed map has scores only exactly when a score was sent last for every key.
  lemma ScoresSent(pairs: seq<Pair>, entries: map<ByteString, Val>)
    requires DenotesPairs(pairs, entries)
    ensures (exists m :: Sends(pairs, m)) <==> forall k | k in entries :: entries[k].Float?
    ensures (forall k | k in entries :: entries[k].Float?) ==> Sends(pairs, Scores(entries))
  {
    if m :| Sends(pairs, m) {
      forall k | k in entries
        ensures entries[k].Float?
      {
        SentIsFloat(pairs, entries, m, k);
      }
    }
    if forall k | k in entries :: entries[k].Float? {
      FloatsAreSent(pairs, entries);
    }
  }

  // Only a Double stands for a float.
  lemma FloatIffDouble(p: Pair, v: Val)
    requires DenotesPair(p, v)
    ensures v.Float? <==> p.value.Double?
    ensures v.Float? ==> p.value == Double(v.score)
  {}

  lemma SentIsFloat(pairs: seq<Pair>, entries: map<ByteString, Val>, m: map<ByteString, Score>, k: ByteString)
    requires DenotesPairs(pairs, entries) && Sends(pairs, m) && k in entries
    ensures entries[k].Float?
  {
    var i :| 0 <= i < |pairs| && pairs[i].key == Some(k);
    var l := LastExists(pairs, k, i);
    assert pairs[l].value.Double? by {
      SendsAt(pairs, m, l);
    }
    FloatIffDouble(pairs[l], entries[k]);
  }

  lemma SendsAt(pairs: seq<Pair>, m: map<ByteString, Score>, i: nat)
    requires Sends(pairs, m) && i < |pairs| && IsLast(pairs, i) && pairs[i].key.Some?
    ensures pairs[i].value.Double?
  {}

  lemma FloatsAreSent(pairs: seq<Pair>, entries: map<ByteString, Val>)
    requires DenotesPairs(pairs, entries) && forall k | k in entries :: entries[k].Float?
    ensures Sends(pairs, Scores(entries))
  {
    var m := Scores(entries);
    SameKeys(pairs, entries);
    forall i | 0 <= i < |pairs| && IsLast(pairs, i) && pairs[i].key.Some?
      ensures pairs[i].key.value in m && pairs[i].value == Double(m[pairs[i].key.value])
    {
      FloatIffDouble(pairs[i], entries[pairs[i].key.value]);
    }
  }

  lemma SameKeys(pairs: seq<Pair>, entries: map<ByteString, Val>)
    requires DenotesPairs(pairs, entries)
    ensures forall k :: k in entries <==> exists i :: 0 <= i < |pairs| && pairs[i].key == Some(k)
  {
    forall k, i | 0 <= i < |pairs| && pairs[i].key == Some(k)
      ensures k in entries
    {
      assert SoundPair(pairs[i]);
    }
  }

  lemma ScoreShape(entries: map<ByteString, Val>)
    requires Untyped(Dict(AnyT, entries))
    ensures HasShape(Dict(AnyT, entries), ScoreConverter()) <==> forall k | k in entries :: entries[k].Float?
    ensures HasShape(Dict(AnyT, entries), ScoreConverter()) ==>
              Typed(Dict(AnyT, entries), ScoreConverter()) == Dict(FloatT, entries)
  {
    var v, c := Dict(AnyT, entries), ScoreConverter();
    forall k | k in entries
      ensures ElementOk(entries[k], c) ==> entries[k].Float?
    {
      assert Untyped(entries[k]);
    }
    assert HasShape(v, c) ==> forall k | k in entries :: ElementOk(EntriesOf(v)[k], c);
    assert Typed(v, c).entries == entries;
  }

  /**
    Succeeds exactly on a sound map that sends a score last for every key, and then gives its entries, ranked
    unless there is a NaN among the scores. It panics only on a missing string or a missing element pointer.
   */
  method HandleResponse(r: Response, reverse: bool) returns (o: Outcome<seq<Entry>>)
    ensures o.Ok? <==> r.Pairs? && Sound(r) && exists m :: Sends(r.pairs, m)
    ensures o.Ok? ==> exists m ::
              Sends(r.pairs, m) && Lists(o.value, m) && (Comparable(m) ==> InOrder(o.value, reverse))
    ensures o.Panic? ==> r == NilContainer(MapKind) || (r.Pairs? && MissesString(r))
  {
    if !r.Pairs? && r != NilContainer(MapKind) {
      return Err;
    }
    ParseOkIffSound(r);
    FailureHasReason(r);
    var parsed := Parse(r);
    if parsed.Err? {
      return Err;
    }
    if parsed.Panic? || parsed.value == Nil {
      return Panic;
    }
    ParsedDenotes(r);
    ScoresSent(r.pairs, parsed.value.entries);
    ScoreShape(parsed.value.entries);
    var converted := Convert(parsed.value, ScoreConverter());
    if !converted.Ok? {
      return if converted.Err? then Err else Panic;
    }
    var s := HandleSortedSetWithScores(Scores(converted.value.entries), reverse);
    return Ok(s);
  }
}
