/**
  The grammar of the tracestate header, section 3.3 of W3C Trace Context, as derivation trees with the text
  they yield.
 */
module TraceStateGrammar {
  import opened Bytes

  const SPACE: Byte := 0x20
  const TAB: Byte := 0x09
  const COMMA: Byte := 0x2C
  const EQUALS: Byte := 0x3D
  const AT: Byte := 0x40
  const OWS: set<Byte> := {SPACE, TAB}

  predicate LcAlpha(b: Byte) { 0x61 <= b <= 0x7A }
  predicate Digit(b: Byte) { 0x30 <= b <= 0x39 }
  // "_" / "-" / "*" / "/" besides letters and digits
  predicate KeyChar(b: Byte) { LcAlpha(b) || Digit(b) || b == 0x5F || b == 0x2D || b == 0x2A || b == 0x2F }
  predicate NonBlank(b: Byte) { 0x21 <= b <= 0x7E && b != COMMA && b != EQUALS }
  predicate Chr(b: Byte) { b == SPACE || NonBlank(b) }

  // A first character and up to max - 1 key characters.
  predicate KeyPart(s: ByteString, max: nat, digitFirst: bool) {
    && 1 <= |s| <= max
    && (LcAlpha(s[0]) || (digitFirst && Digit(s[0])))
    && forall i | 1 <= i < |s| :: KeyChar(s[i])
  }

  datatype Key =
    | SimpleKey(name: ByteString)
    | MultiTenantKey(tenant: ByteString, system: ByteString)

  predicate WellFormedKey(k: Key) {
    match k
    case SimpleKey(name) => KeyPart(name, 256, false)
    case MultiTenantKey(tenant, system) => KeyPart(tenant, 241, true) && KeyPart(system, 14, false)
  }

  function KeyText(k: Key): ByteString {
    match k
    case SimpleKey(name) => name
    case MultiTenantKey(tenant, system) => tenant + [AT] + system
  }

  // 0*255(chr) nblk-chr
  predicate WellFormedValue(v: ByteString) {
    1 <= |v| <= 256 && (forall i | 0 <= i < |v| - 1 :: Chr(v[i])) && NonBlank(v[|v| - 1])
  }

  // list-member = key "=" value / OWS
  datatype Member =
    | Entry(key: Key, value: ByteString)
    | Blank(ows: ByteString)

  predicate WellFormedMember(m: Member) {
    match m
    case Entry(key, value) => WellFormedKey(key) && WellFormedValue(value)
    case Blank(ows) => All(ows, OWS)
  }

  function MemberText(m: Member): ByteString {
    match m
    case Entry(key, value) => KeyText(key) + [EQUALS] + value
    case Blank(ows) => ows
  }

  // OWS "," OWS list-member
  datatype Next = Next(before: ByteString, after: ByteString, member: Member)

  predicate WellFormedNext(n: Next) {
    All(n.before, OWS) && All(n.after, OWS) && WellFormedMember(n.member)
  }

  // list = list-member 0*31( OWS "," OWS list-member )
  datatype List = List(first: Member, rest: seq<Next>)

  predicate WellFormedList(l: List) {
    WellFormedMember(l.first) && |l.rest| <= 31 && forall n | n in l.rest :: WellFormedNext(n)
  }

  function RestText(rest: seq<Next>): ByteString {
    if rest == [] then []
    else rest[0].before + [COMMA] + rest[0].after + MemberText(rest[0].member) + RestText(rest[1..])
  }

  function ListText(l: List): ByteString {
    MemberText(l.first) + RestText(l.rest)
  }

  function KeysOfMember(m: Member): seq<ByteString> {
    if m.Entry? then [KeyText(m.key)] else []
  }

  function RestKeys(rest: seq<Next>): seq<ByteString> {
    if rest == [] then [] else KeysOfMember(rest[0].member) + RestKeys(rest[1..])
  }

  function ListKeys(l: List): seq<ByteString> {
    KeysOfMember(l.first) + RestKeys(l.rest)
  }

  predicate Distinct(keys: seq<ByteString>) {
    forall i, j | 0 <= i < j < |keys| :: keys[i] != keys[j]
  }

  // `s` is a list of the grammar in which no key occurs twice.
  ghost predicate IsList(s: ByteString) {
    exists l :: WellFormedList(l) && Distinct(ListKeys(l)) && ListText(l) == s
  }

  ghost predicate IsPadded(lead: ByteString, l: List, trail: ByteString, s: ByteString) {
    && All(lead, OWS) && All(trail, OWS) && WellFormedList(l) && Distinct(ListKeys(l))
    && s == lead + ListText(l) + trail
  }

  // `s` is such a list with optional whitespace around it, as a header field value is.
  ghost predicate IsHeader(s: ByteString) {
    exists lead, l, trail :: IsPadded(lead, l, trail, s)
  }

  // ---------------------------------------------------------------------------------------------
  // What separates the parts of a member
  // ---------------------------------------------------------------------------------------------

  lemma KeyTextChars(k: Key)
    requires WellFormedKey(k)
    ensures var t := KeyText(k);
            && |t| > 0 && t[0] !in OWS
            && (forall i | 0 <= i < |t| :: KeyChar(t[i]) || t[i] == AT)
  {
    var t := KeyText(k);
    match k
    case SimpleKey(name) =>
      forall i | 0 <= i < |t| ensures KeyChar(t[i]) {}
    case MultiTenantKey(tenant, system) =>
      forall i | 0 <= i < |t| ensures KeyChar(t[i]) || t[i] == AT {
        if i > |tenant| { assert t[i] == system[i - |tenant| - 1]; }
      }
  }

  // An entry has no comma, and neither starts nor ends with whitespace.
  lemma EntryText(m: Member)
    requires WellFormedMember(m) && m.Entry?
    ensures var t := MemberText(m);
            COMMA !in t && |t| > 0 && t[0] !in OWS && t[|t| - 1] !in OWS
  {
    var k, t := KeyText(m.key), MemberText(m);
    KeyTextChars(m.key);
    assert t[0] == k[0] && t[|t| - 1] == m.value[|m.value| - 1];
    forall i | 0 <= i < |t| ensures t[i] != COMMA {
      if i < |k| { assert t[i] == k[i]; }
      else if i > |k| { assert t[i] == m.value[i - |k| - 1]; }
    }
  }
}
