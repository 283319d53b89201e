/**
  From untyped server responses to typed values: the chain of map and array converters. Values carry their
  dynamic Go type; a failed type assertion without a check panics.
 */
module Converters {

  import opened Wrappers
  import opened Bytes
  import opened SortedSet

  datatype Ty = AnyT | StringT | IntT | FloatT | BoolT | SetT | ErrorT | SliceT(elem: Ty) | MapT(elem: Ty)

  // A value of Go type any. `NilOf` is a nil slice or map of a type; `Nil` is the nil interface.
  datatype Val =
    | Nil
    | Str(text: ByteString)
    | Int(number: int)
    | Float(score: Score)
    | Boolean(flag: bool)
    | Members(members: set<ByteString>)
    | Problem(message: ByteString)
    | Slice(elem: Ty, items: seq<Val>)
    | Dict(elem: Ty, entries: map<ByteString, Val>)
    | NilOf(ty: Ty)

  datatype Outcome<+T> = Ok(value: T) | Err | Panic

  // mapConverter[elem] and arrayConverter[elem].
  datatype Converter =
    | ArrayConverter(elem: Ty, next: Option<Converter>, canBeNil: bool)
    | MapConverter(elem: Ty, next: Option<Converter>, canBeNil: bool)

  function TypeOf(v: Val): Option<Ty> {
    match v
    case Nil => None
    case Str(_) => Some(StringT)
    case Int(_) => Some(IntT)
    case Float(_) => Some(FloatT)
    case Boolean(_) => Some(BoolT)
    case Members(_) => Some(SetT)
    case Problem(_) => Some(ErrorT)
    case Slice(t, _) => Some(SliceT(t))
    case Dict(t, _) => Some(MapT(t))
    case NilOf(t) => if t.SliceT? || t.MapT? || t.SetT? then Some(t) else None
  }

  // The checked assertion v.(t).
  predicate IsA(v: Val, t: Ty) {
    v != Nil && (t == AnyT || TypeOf(v) == Some(t))
  }

  function Zero(t: Ty): Val {
    match t
    case AnyT => Nil
    case StringT => Str([])
    case IntT => Int(0)
    case FloatT => Float(Finite(0.0))
    case BoolT => Boolean(false)
    case ErrorT => Nil
    case SetT => NilOf(t)
    case SliceT(_) => NilOf(t)
    case MapT(_) => NilOf(t)
  }

  // The unchecked assertions data.([]any) and data.(map[string]any).
  function AsItems(v: Val): Option<seq<Val>> {
    if v.Slice? && v.elem == AnyT then Some(v.items) else if v == NilOf(SliceT(AnyT)) then Some([]) else None
  }

  function AsEntries(v: Val): Option<map<ByteString, Val>> {
    if v.Dict? && v.elem == AnyT then Some(v.entries) else if v == NilOf(MapT(AnyT)) then Some(map[]) else None
  }

  function ResultType(c: Converter): Ty {
    if c.ArrayConverter? then SliceT(c.elem) else MapT(c.elem)
  }

  // Each converter's element type is what the next one produces.
  predicate WellTyped(c: Converter) {
    match c.next
    case None => true
    case Some(n) => (c.elem == AnyT || c.elem == ResultType(n)) && WellTyped(n)
  }

  // ---------------------------------------------------------------- the declared shape

  // The values a Go variable of type t can hold; a variable of type any holds everything, but asserting a value to
  // be an any fails for nil.
  ghost predicate OfType(v: Val, t: Ty) {
    match t
    case AnyT => v != Nil
    case StringT => v.Str?
    case IntT => v.Int?
    case FloatT => v.Float?
    case BoolT => v.Boolean?
    case ErrorT => v.Problem?
    case SetT => v.Members? || v == NilOf(t)
    case SliceT(e) => (v.Slice? && v.elem == e) || v == NilOf(t)
    case MapT(e) => (v.Dict? && v.elem == e) || v == NilOf(t)
  }

  ghost predicate AnySlice(v: Val) {
    (v.Slice? && v.elem == AnyT) || v == NilOf(SliceT(AnyT))
  }

  ghost predicate AnyMap(v: Val) {
    (v.Dict? && v.elem == AnyT) || v == NilOf(MapT(AnyT))
  }

  // The elements; a nil slice and a nil map have none.
  ghost function ItemsOf(v: Val): seq<Val> {
    if v.Slice? then v.items else []
  }

  ghost function EntriesOf(v: Val): map<ByteString, Val> {
    if v.Dict? then v.entries else map[]
  }

  // The zero value of a type holds nothing.
  lemma ZeroHoldsNothing(t: Ty)
    ensures OfType(Zero(t), t) || (Zero(t) == Nil && (t == AnyT || t == ErrorT))
    ensures match Zero(t)
            case Str(text) => text == []
            case Int(n) => n == 0
            case Float(x) => x == Finite(0.0)
            case Boolean(b) => !b
            case Nil => true
            case NilOf(_) => true
            case _ => false
  {}

  // The checked assertion succeeds exactly on the values of the type.
  lemma AssertionIffOfType(v: Val, t: Ty)
    ensures IsA(v, t) <==> OfType(v, t)
  {}

  lemma ContainerAssertions(v: Val)
    ensures AsItems(v) == if AnySlice(v) then Some(ItemsOf(v)) else None
    ensures AsEntries(v) == if AnyMap(v) then Some(EntriesOf(v)) else None
  {}

  /**
    The declared shape: nil only where allowed, containers where the chain has converters, and elements of the
    element type at its end. (A converted element must also fit the element type; in a well-typed chain it does.)
   */
  ghost predicate HasShape(v: Val, c: Converter)
    decreases c, 1
  {
    if v == Nil then c.canBeNil
    else if c.ArrayConverter? then
      AnySlice(v) && forall i | 0 <= i < |ItemsOf(v)| :: ElementOk(ItemsOf(v)[i], c)
    else
      AnyMap(v) && forall k | k in EntriesOf(v) :: ElementOk(EntriesOf(v)[k], c)
  }

  ghost predicate ElementOk(v: Val, c: Converter)
    decreases c, 0
  {
    match c.next
    case None => OfType(v, c.elem)
    case Some(n) => HasShape(v, n) && (v == Nil || c.elem == AnyT || c.elem == ResultType(n))
  }

  // The typed value that a value of the declared shape becomes.
  ghost function Typed(v: Val, c: Converter): Val
    decreases c, 1
  {
    if v == Nil then Nil
    else if c.ArrayConverter? then
      var items := ItemsOf(v);
      Slice(c.elem, seq(|items|, i requires 0 <= i < |items| => TypedElement(items[i], c)))
    else
      Dict(c.elem, map k | k in EntriesOf(v) :: TypedElement(EntriesOf(v)[k], c))
  }

  ghost function TypedElement(v: Val, c: Converter): Val
    decreases c, 0
  {
    match c.next
    case None => v
    case Some(n) => if v == Nil then Zero(c.elem) else Typed(v, n)
  }

  // Something other than a container stands where the chain has a converter.
  ghost predicate CanPanic(v: Val, c: Converter)
    decreases c
  {
    && v != Nil
    && if c.ArrayConverter? then
         !AnySlice(v) ||
         (c.next.Some? && exists i :: 0 <= i < |ItemsOf(v)| && CanPanic(ItemsOf(v)[i], c.next.value))
       else
         !AnyMap(v) ||
         (c.next.Some? && exists k :: k in EntriesOf(v) && CanPanic(EntriesOf(v)[k], c.next.value))
  }

  // ---------------------------------------------------------------- the code

  // One turn of either loop: convert an element to the element type.
  method ConvertElement(v: Val, c: Converter) returns (r: Outcome<Val>)
    ensures r.Ok? <==> ElementOk(v, c)
    ensures r.Ok? ==> r.value == TypedElement(v, c)
    ensures r.Panic? ==> c.next.Some? && CanPanic(v, c.next.value)
    decreases c, 0
  {
    match c.next
    case None =>
      AssertionIffOfType(v, c.elem);
      r := if IsA(v, c.elem) then Ok(v) else Err;
    case Some(n) =>
      r := Convert(v, n);
      if r.Ok? {
        if r.value == Nil {
          r := Ok(Zero(c.elem));
        } else if !IsA(r.value, c.elem) {
          r := Err;
        }
      }
  }

  method ConvertArray(items: seq<Val>, c: Converter) returns (r: Outcome<seq<Val>>)
    ensures r.Ok? <==> forall i | 0 <= i < |items| :: ElementOk(items[i], c)
    ensures r.Ok? ==> |r.value| == |items| && forall i | 0 <= i < |items| :: r.value[i] == TypedElement(items[i], c)
    ensures r.Panic? ==> c.next.Some? && exists i :: 0 <= i < |items| && CanPanic(items[i], c.next.value)
    decreases c, 1
  {
    var result: seq<Val> := [];
    for i := 0 to |items|
      invariant |result| == i
      invariant forall j | 0 <= j < i :: ElementOk(items[j], c) && result[j] == TypedElement(items[j], c)
    {
      var e := ConvertElement(items[i], c);
      match e
      case Ok(x) => result := result + [x];
      case Err => return Err;
      case Panic => return Panic;
    }
    return Ok(result);
  }

  // The keys come in an arbitrary order.
  method ConvertMap(entries: map<ByteString, Val>, c: Converter) returns (r: Outcome<map<ByteString, Val>>)
    ensures r.Ok? <==> forall k | k in entries :: ElementOk(entries[k], c)
    ensures r.Ok? ==> r.value.Keys == entries.Keys
    ensures r.Ok? ==> forall k | k in entries :: r.value[k] == TypedElement(entries[k], c)
    ensures r.Panic? ==> c.next.Some? && exists k :: k in entries && CanPanic(entries[k], c.next.value)
    decreases c, 1
  {
    var result: map<ByteString, Val> := map[];
    var left := entries.Keys;
    while left != {}
      invariant left <= entries.Keys && result.Keys == entries.Keys - left
      invariant forall k | k in result :: ElementOk(entries[k], c) && result[k] == TypedElement(entries[k], c)
      decreases |left|
    {
      var k :| k in left;
      left := left - {k};
      var e := ConvertElement(entries[k], c);
      match e
      case Ok(x) => result := result[k := x];
      case Err => return Err;
      case Panic => return Panic;
    }
    return Ok(result);
  }

  /**
    Conversion succeeds exactly on values of the declared shape, and then gives the typed value. It panics only
    where something other than a container meets a converter; otherwise it reports an error.
   */
  method Convert(v: Val, c: Converter) returns (r: Outcome<Val>)
    ensures r.Ok? <==> HasShape(v, c)
    ensures r.Ok? ==> r.value == Typed(v, c)
    ensures r.Panic? ==> CanPanic(v, c)
    decreases c, 2
  {
    if v == Nil {
      return if c.canBeNil then Ok(Nil) else Err;
    }
    ContainerAssertions(v);
    if c.ArrayConverter? {
      var items := AsItems(v);
      if items.None? {
        return Panic;
      }
      var a := ConvertArray(items.value, c);
      r := match a case Ok(s) => Ok(Slice(c.elem, s)) case Err => Err case Panic => Panic;
    } else {
      var entries := AsEntries(v);
      if entries.None? {
        return Panic;
      }
      var a := ConvertMap(entries.value, c);
      r := match a case Ok(s) => Ok(Dict(c.elem, s)) case Err => Err case Panic => Panic;
    }
  }

  // ---------------------------------------------------------------- nothing is lost

  // Forget the element types: what the server sent.
  ghost function Erase(v: Val): Val {
    match v
    case Slice(_, items) => Slice(AnyT, seq(|items|, i requires 0 <= i < |items| => Erase(items[i])))
    case Dict(_, entries) => Dict(AnyT, map k | k in entries :: Erase(entries[k]))
    case NilOf(_) => Nil
    case _ => v
  }

  // What parsing a response gives: containers of any, all the way down.
  ghost predicate Untyped(v: Val) {
    match v
    case Slice(t, items) => t == AnyT && forall i | 0 <= i < |items| :: Untyped(items[i])
    case Dict(t, entries) => t == AnyT && forall k | k in entries :: Untyped(entries[k])
    case NilOf(_) => false
    case _ => true
  }

  // v can stand where a t is declared, and so can everything in it.
  ghost predicate HasType(v: Val, t: Ty) {
    && (t == AnyT || OfType(v, t))
    && match v
       case Slice(u, items) => forall i | 0 <= i < |items| :: HasType(items[i], u)
       case Dict(u, entries) => forall k | k in entries :: HasType(entries[k], u)
       case _ => true
  }

  lemma {:induction false} EraseUntyped(v: Val)
    requires Untyped(v)
    ensures Erase(v) == v && HasType(v, AnyT)
  {
    match v
    case Slice(_, items) =>
      forall i | 0 <= i < |items|
        ensures Erase(items[i]) == items[i] && HasType(items[i], AnyT)
      {
        EraseUntyped(items[i]);
      }
      assert Erase(v).items == items;
    case Dict(_, entries) =>
      forall k | k in entries
        ensures Erase(entries[k]) == entries[k] && HasType(entries[k], AnyT)
      {
        EraseUntyped(entries[k]);
      }
      assert Erase(v).entries == entries;
    case _ =>
  }

  // No converter turns a null into a zero value that is not nil; every well-typed chain is like this.
  ghost predicate Lossless(c: Converter) {
    match c.next
    case None => true
    case Some(n) =>
      if c.elem == AnyT || c.elem == ResultType(n) then Lossless(n) else !n.canBeNil || Erase(Zero(c.elem)) == Nil
  }

  lemma {:induction false} WellTypedIsLossless(c: Converter)
    requires WellTyped(c)
    ensures Lossless(c)
  {
    if c.next.Some? {
      WellTypedIsLossless(c.next.value);
    }
  }

  /**
    Forgetting the types gives back exactly the input. In a well-typed chain the result is nil where the input
    is, or else a container of the declared type whose every element has the element type.
   */
  lemma {:induction false} TypedKeepsContents(v: Val, c: Converter)
    requires Lossless(c) && Untyped(v) && HasShape(v, c)
    ensures Erase(Typed(v, c)) == v
    ensures WellTyped(c) ==> if v == Nil then Typed(v, c) == Nil else HasType(Typed(v, c), ResultType(c))
    decreases c, 1
  {
    if v != Nil {
      if c.ArrayConverter? {
        forall i | 0 <= i < |v.items|
          ensures Erase(TypedElement(v.items[i], c)) == v.items[i]
          ensures WellTyped(c) ==> HasType(TypedElement(v.items[i], c), c.elem)
        {
          assert ElementOk(ItemsOf(v)[i], c);
          ElementKeepsContents(v.items[i], c);
        }
        assert Erase(Typed(v, c)).items == v.items;
      } else {
        forall k | k in v.entries
          ensures Erase(TypedElement(v.entries[k], c)) == v.entries[k]
          ensures WellTyped(c) ==> HasType(TypedElement(v.entries[k], c), c.elem)
        {
          assert ElementOk(EntriesOf(v)[k], c);
          ElementKeepsContents(v.entries[k], c);
        }
        assert Erase(Typed(v, c)).entries == v.entries;
      }
    }
  }

  lemma {:induction false} ElementKeepsContents(v: Val, c: Converter)
    requires Lossless(c) && Untyped(v) && ElementOk(v, c)
    ensures Erase(TypedElement(v, c)) == v
    ensures WellTyped(c) ==> HasType(TypedElement(v, c), c.elem)
    decreases c, 0
  {
    match c.next
    case None => EraseUntyped(v);
    case Some(n) =>
      if v != Nil {
        TypedKeepsContents(v, n);
      }
  }

  // No two responses become the same typed value.
  lemma TypedInjective(v: Val, w: Val, c: Converter)
    requires WellTyped(c) && Untyped(v) && Untyped(w) && HasShape(v, c) && HasShape(w, c)
    requires Typed(v, c) == Typed(w, c)
    ensures v == w
  {
    WellTypedIsLossless(c);
    TypedKeepsContents(v, c);
    TypedKeepsContents(w, c);
  }

  // A container of one element that is not given back is not given back.
  lemma LossyContainer(e: Val, c: Converter) returns (v: Val)
    requires Untyped(e) && ElementOk(e, c) && Erase(TypedElement(e, c)) != e
    ensures v != Nil && Untyped(v) && HasShape(v, c) && Erase(Typed(v, c)) != v
  {
    if c.ArrayConverter? {
      v := Slice(AnyT, [e]);
      assert Erase(Typed(v, c)).items[0] != v.items[0];
    } else {
      v := Dict(AnyT, map[[] := e]);
      assert Erase(Typed(v, c)).entries[[]] != v.entries[[]];
    }
  }

  // A response in which a null becomes the zero value of the element type.
  lemma {:induction false} LossyResponse(c: Converter) returns (v: Val)
    requires !Lossless(c)
    ensures v != Nil && Untyped(v) && HasShape(v, c) && Erase(Typed(v, c)) != v
  {
    var n, e := c.next.value, Nil;
    if c.elem == AnyT || c.elem == ResultType(n) {
      e := LossyResponse(n);
      assert TypedElement(e, c) == Typed(e, n);
    } else {
      assert TypedElement(Nil, c) == Zero(c.elem);
    }
    v := LossyContainer(e, c);
  }

  // The chains that give back every response they accept.
  lemma ContentsKeptIffLossless(c: Converter)
    ensures (forall v | Untyped(v) && HasShape(v, c) :: Erase(Typed(v, c)) == v) <==> Lossless(c)
  {
    if Lossless(c) {
      forall v | Untyped(v) && HasShape(v, c)
        ensures Erase(Typed(v, c)) == v
      {
        TypedKeepsContents(v, c);
      }
    } else {
      var v := LossyResponse(c);
    }
  }

  // A value that makes the code panic does not have the declared shape.
  lemma {:induction false} PanicsOnlyOffShape(v: Val, c: Converter)
    requires CanPanic(v, c)
    ensures !HasShape(v, c)
    decreases c
  {
    if c.next.Some? {
      if c.ArrayConverter? && AnySlice(v) {
        var i :| 0 <= i < |ItemsOf(v)| && CanPanic(ItemsOf(v)[i], c.next.value);
        PanicsOnlyOffShape(ItemsOf(v)[i], c.next.value);
        assert !ElementOk(ItemsOf(v)[i], c);
      } else if c.MapConverter? && AnyMap(v) {
        var k :| k in EntriesOf(v) && CanPanic(EntriesOf(v)[k], c.next.value);
        PanicsOnlyOffShape(EntriesOf(v)[k], c.next.value);
        assert !ElementOk(EntriesOf(v)[k], c);
      }
    }
  }
}
