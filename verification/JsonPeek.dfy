/**
 * The in-place probe for one top-level string field of a JSON object, checked against the grammar
 * of RFC 8259. Methods follow the scanner; functions say what it computes on any bytes; the last
 * part says what that means on texts of the grammar.
 */
module JsonPeek {
  import opened Options

  type byte = x: int | 0 <= x < 256

  const QUOTE: byte := 0x22
  const BACKSLASH: byte := 0x5C
  const COMMA: byte := 0x2C
  const COLON: byte := 0x3A
  const OPEN_BRACE: byte := 0x7B
  const CLOSE_BRACE: byte := 0x7D
  const OPEN_BRACKET: byte := 0x5B
  const CLOSE_BRACKET: byte := 0x5D
  const LETTER_U: byte := 0x75

  datatype Peeked = Hit(value: seq<byte>) | Miss

  predicate IsSpace(c: byte) {
    c == 0x20 || c == 0x09 || c == 0x0A || c == 0x0D
  }

  // ---------------------------------------------------------------------------------------------
  // What the scanner computes
  // ---------------------------------------------------------------------------------------------

  /** The bytes from some position on. */
  datatype Text = End | Byte(head: byte, tail: Text)

  function Size(t: Text): nat {
    if t.End? then 0 else 1 + Size(t.tail)
  }

  function From(data: seq<byte>, i: nat): Text
    requires i <= |data|
    decreases |data| - i
  {
    if i == |data| then End else Byte(data[i], From(data, i + 1))
  }

  /** Content and remainder of a string whose opening quote precedes `t`. */
  function Scan(t: Text): (r: Option<(seq<byte>, Text)>)
    ensures r.Some? ==> Size(r.value.1) < Size(t)
  {
    if t.End? then None
    else if t.head == QUOTE then Some(([], t.tail))
    else if t.head != BACKSLASH then Prefix([t.head], Scan(t.tail))
    else if t.tail.End? then None
    else Prefix([t.head, t.tail.head], Scan(t.tail.tail))
  }

  function Prefix(run: seq<byte>, r: Option<(seq<byte>, Text)>): Option<(seq<byte>, Text)> {
    match r
    case None => None
    case Some((content, rest)) => Some((run + content, rest))
  }

  lemma PrefixJoin(a: seq<byte>, b: seq<byte>, r: Option<(seq<byte>, Text)>)
    ensures Prefix(a + b, r) == Prefix(a, Prefix(b, r)) && Prefix([], r) == r
  {
    if r.Some? {
      assert (a + b) + r.value.0 == a + (b + r.value.0);
      assert [] + r.value.0 == r.value.0;
    }
  }

  function SkipSpace(t: Text): Text {
    if t.Byte? && IsSpace(t.head) then SkipSpace(t.tail) else t
  }

  /** The string literal at the start of `t`, if there is one and it has no escape. */
  function PlainString(t: Text): Peeked {
    if t.End? || t.head != QUOTE then Miss
    else
      match Scan(t.tail)
      case None => Miss
      case Some((content, _)) => if BACKSLASH in content then Miss else Hit(content)
  }

  /** The string value that follows a key: a colon, then a plain string. */
  function ValueAfterKey(t: Text): Peeked {
    var afterKey := SkipSpace(t);
    if afterKey.End? || afterKey.head != COLON then Miss else PlainString(SkipSpace(afterKey.tail))
  }

  function PeekFrom(t: Text, depth: nat, key: seq<byte>): Peeked
    decreases Size(t)
  {
    if t.End? then Miss
    else if t.head == OPEN_BRACE || t.head == OPEN_BRACKET then PeekFrom(t.tail, depth + 1, key)
    else if t.head == CLOSE_BRACE || t.head == CLOSE_BRACKET then
      if depth == 0 then Miss else PeekFrom(t.tail, depth - 1, key)
    else if t.head == QUOTE then
      match Scan(t.tail)
      case None => Miss
      case Some((content, rest)) =>
        if depth == 0 && content == key then ValueAfterKey(rest) else PeekFrom(rest, depth, key)
    else PeekFrom(t.tail, depth, key)
  }

  function Peek(t: Text, key: seq<byte>): Peeked {
    var braced := SkipSpace(t);
    if braced.End? || braced.head != OPEN_BRACE then Miss else PeekFrom(braced.tail, 0, key)
  }

  // ---------------------------------------------------------------------------------------------
  // The scanning loops
  // ---------------------------------------------------------------------------------------------

  /** scanJSONString: the content of the string whose opening quote is at `pos`. */
  method ScanJsonString(data: seq<byte>, pos: nat) returns (start: nat, end: nat, ok: bool)
    ensures ok <==> pos < |data| && data[pos] == QUOTE && Scan(From(data, pos + 1)).Some?
    ensures ok ==> start == pos + 1 && start <= end < |data|
                   && Scan(From(data, start)) == Some((data[start..end], From(data, end + 1)))
  {
    var n := |data|;
    if pos >= n || data[pos] != QUOTE {
      return 0, 0, false;
    }
    start := pos + 1;
    ghost var whole := Scan(From(data, start));
    var i := start;
    PrefixJoin([], [], whole);
    assert data[start..start] == [];
    while i < n
      invariant start <= i
      invariant if i <= n then whole == Prefix(data[start..i], Scan(From(data, i))) else whole == None
    {
      if data[i] == BACKSLASH {
        if i + 1 < n {
          PrefixJoin(data[start..i], [data[i], data[i + 1]], Scan(From(data, i + 2)));
          assert data[start..i + 2] == data[start..i] + [data[i], data[i + 1]];
        }
        i := i + 1;
      } else if data[i] == QUOTE {
        assert data[start..i] + [] == data[start..i];
        return start, i, true;
      } else {
        PrefixJoin(data[start..i], [data[i]], Scan(From(data, i + 1)));
        assert data[start..i + 1] == data[start..i] + [data[i]];
      }
      i := i + 1;
    }
    return 0, 0, false;
  }

  method SkipSpaces(data: seq<byte>, from: nat) returns (i: nat)
    requires from <= |data|
    ensures from <= i <= |data| && From(data, i) == SkipSpace(From(data, from))
  {
    i := from;
    while i < |data| && IsSpace(data[i])
      invariant from <= i <= |data| && SkipSpace(From(data, i)) == SkipSpace(From(data, from))
    {
      i := i + 1;
    }
  }

  /** readJSONStringValueAfterKey; `pos` is the position after the key's closing quote. */
  method ReadStringValueAfterKey(data: seq<byte>, pos: nat) returns (r: Peeked)
    requires pos <= |data|
    ensures r == ValueAfterKey(From(data, pos))
  {
    var p := SkipSpaces(data, pos);
    if p >= |data| || data[p] != COLON {
      return Miss;
    }
    p := SkipSpaces(data, p + 1);
    if p >= |data| || data[p] != QUOTE {
      return Miss;
    }
    var start, end, ok := ScanJsonString(data, p);
    if !ok {
      return Miss;
    }
    var escaped := HasBackslash(data, start, end);
    return if escaped then Miss else Hit(data[start..end]);
  }

  method HasBackslash(data: seq<byte>, start: nat, end: nat) returns (found: bool)
    requires start <= end <= |data|
    ensures found <==> BACKSLASH in data[start..end]
  {
    for j := start to end
      invariant BACKSLASH !in data[start..j]
    {
      if data[j] == BACKSLASH {
        assert data[start..end][j - start] == BACKSLASH;
        return true;
      }
      assert data[start..j + 1] == data[start..j] + [data[j]];
    }
    return false;
  }

  /** jsonPeekTopLevelString: every read is in range whatever the bytes are. */
  method JsonPeekTopLevelString(data: seq<byte>, key: seq<byte>) returns (r: Peeked)
    ensures r == Peek(From(data, 0), key)
  {
    var n := |data|;
    var i := SkipSpaces(data, 0);
    if i >= n || data[i] != OPEN_BRACE {
      return Miss;
    }
    i := i + 1;
    var depth: nat := 0;
    ghost var answer := PeekFrom(From(data, i), 0, key);
    while i < n
      invariant i <= n && PeekFrom(From(data, i), depth, key) == answer
    {
      var c := data[i];
      if IsSpace(c) || c == COMMA || c == COLON {
        i := i + 1;
      } else if c == OPEN_BRACE || c == OPEN_BRACKET {
        depth := depth + 1;
        i := i + 1;
      } else if c == CLOSE_BRACE || c == CLOSE_BRACKET {
        if depth == 0 {
          return Miss;
        }
        depth := depth - 1;
        i := i + 1;
      } else if c == QUOTE {
        var start, end, ok := ScanJsonString(data, i);
        if !ok {
          return Miss;
        }
        if depth == 0 && data[start..end] == key {
          r := ReadStringValueAfterKey(data, end + 1);
          return;
        }
        i := end + 1;
      } else {
        i := i + 1;
      }
    }
    return Miss;
  }

  // ---------------------------------------------------------------------------------------------
  // The grammar
  // ---------------------------------------------------------------------------------------------

  /** JSON values with the white space of their text. `Scalar` covers numbers, true, false and null. */
  datatype Value =
    | Str(body: seq<byte>)
    | Scalar(text: seq<byte>)
    | Arr(items: Items)
    | Obj(members: Members)

  datatype Items =
    | NoItems(pad: seq<byte>)
    | Item(before: seq<byte>, value: Value, after: seq<byte>, rest: Items)

  datatype Members =
    | NoMembers(pad: seq<byte>)
    | Member(before: seq<byte>, name: seq<byte>, afterName: seq<byte>, beforeValue: seq<byte>, value: Value,
             after: seq<byte>, rest: Members)

  /** White space of section 2: space, tab, line feed and carriage return. */
  predicate AllSpace(s: seq<byte>) {
    forall i :: 0 <= i < |s| ==> s[i] in [0x20, 0x09, 0x0A, 0x0D]
  }

  /** The bytes of numbers and literals: digits, letters, '+', '-' and '.'. */
  predicate IsScalarByte(c: byte) {
    0x30 <= c <= 0x39 || 0x41 <= c <= 0x5A || 0x61 <= c <= 0x7A || c == 0x2B || c == 0x2D || c == 0x2E
  }

  predicate IsHex(c: byte) {
    0x30 <= c <= 0x39 || 0x41 <= c <= 0x46 || 0x61 <= c <= 0x66
  }

  /** The escapes of section 7 besides \u: quote, backslash, '/', b, f, n, r, t. */
  predicate IsSimpleEscape(c: byte) {
    c in [QUOTE, BACKSLASH, 0x2F, 0x62, 0x66, 0x6E, 0x72, 0x74]
  }

  predicate IsUnicodeEscape(s: seq<byte>) {
    |s| >= 6 && s[0] == BACKSLASH && s[1] == LETTER_U && IsHex(s[2]) && IsHex(s[3]) && IsHex(s[4]) && IsHex(s[5])
  }

  /** The text between the quotes of a string (section 7). */
  predicate IsBody(s: seq<byte>) {
    if s == [] then true
    else if s[0] != BACKSLASH then s[0] != QUOTE && s[0] >= 0x20 && IsBody(s[1..])
    else if IsUnicodeEscape(s) then IsBody(s[6..])
    else |s| >= 2 && IsSimpleEscape(s[1]) && IsBody(s[2..])
  }

  predicate IsValue(v: Value) {
    match v
    case Str(body) => IsBody(body)
    case Scalar(text) => text != [] && forall i :: 0 <= i < |text| ==> IsScalarByte(text[i])
    case Arr(items) => AreItems(items)
    case Obj(members) => AreMembers(members)
  }

  predicate AreItems(items: Items) {
    match items
    case NoItems(pad) => AllSpace(pad)
    case Item(before, value, after, rest) => AllSpace(before) && IsValue(value) && AllSpace(after) && AreItems(rest)
  }

  predicate AreMembers(members: Members) {
    match members
    case NoMembers(pad) => AllSpace(pad)
    case Member(before, name, afterName, beforeValue, value, after, rest) =>
      && AllSpace(before) && IsBody(name) && AllSpace(afterName) && AllSpace(beforeValue)
      && IsValue(value) && AllSpace(after) && AreMembers(rest)
  }

  function Then(run: seq<byte>, rest: Text): Text {
    if run == [] then rest else Byte(run[0], Then(run[1..], rest))
  }

  function Quoted(body: seq<byte>, rest: Text): Text {
    Byte(QUOTE, Then(body, Byte(QUOTE, rest)))
  }

  /** The text of a value followed by `rest`; items and members after the first start with a comma. */
  function ValueText(v: Value, rest: Text): Text {
    match v
    case Str(body) => Quoted(body, rest)
    case Scalar(text) => Then(text, rest)
    case Arr(items) => Byte(OPEN_BRACKET, ItemsText(items, true, Byte(CLOSE_BRACKET, rest)))
    case Obj(members) => Byte(OPEN_BRACE, MembersText(members, true, Byte(CLOSE_BRACE, rest)))
  }

  function Separated(first: bool, text: Text): Text {
    if first then text else Byte(COMMA, text)
  }

  function ItemsText(items: Items, first: bool, rest: Text): Text {
    match items
    case NoItems(pad) => Then(pad, rest)
    case Item(before, value, after, more) =>
      Separated(first, Then(before, ValueText(value, Then(after, ItemsText(more, false, rest)))))
  }

  function MembersText(members: Members, first: bool, rest: Text): Text {
    match members
    case NoMembers(pad) => Then(pad, rest)
    case Member(before, name, afterName, beforeValue, value, after, more) =>
      Separated(first, Then(before, Quoted(name, Then(afterName, Byte(COLON, Then(beforeValue,
        ValueText(value, Then(after, MembersText(more, false, rest)))))))))
  }

  /** A JSON text whose value is an object: white space, the object, and whatever follows. */
  function ObjectText(lead: seq<byte>, members: Members, trail: Text): Text {
    Then(lead, ValueText(Obj(members), trail))
  }

  /** What the probe answers on the members of an object, in terms of names and values. */
  function PeekMembers(members: Members, key: seq<byte>): Peeked {
    match members
    case NoMembers(_) => Miss
    case Member(_, name, _, _, value, _, rest) =>
      if name == key then
        if value.Str? && BACKSLASH !in value.body then Hit(value.body) else Miss
      else if value == Str(key) then Miss
      else PeekMembers(rest, key)
  }

  // ---------------------------------------------------------------------------------------------
  // The scanner on texts of the grammar
  // ---------------------------------------------------------------------------------------------

  /** A well-formed string ends at its closing quote, whatever it escapes. */
  lemma {:induction false} BodyScanned(body: seq<byte>, rest: Text)
    requires IsBody(body)
    ensures Scan(Then(body, Byte(QUOTE, rest))) == Some((body, rest))
    decreases |body|
  {
    if body == [] {
    } else if body[0] != BACKSLASH {
      BodyScanned(body[1..], rest);
      assert body == [body[0]] + body[1..];
    } else if IsUnicodeEscape(body) {
      UnicodeStep(body, Byte(QUOTE, rest));
      BodyScanned(body[6..], rest);
      assert body == body[..6] + body[6..];
    } else {
      assert body[1..][1..] == body[2..];
      BodyScanned(body[2..], rest);
      assert body == [body[0], body[1]] + body[2..];
    }
  }

  lemma UnicodeStep(body: seq<byte>, rest: Text)
    requires IsUnicodeEscape(body)
    ensures Scan(Then(body, rest)) == Prefix(body[..6], Scan(Then(body[6..], rest)))
  {
    assert body[1..][1..] == body[2..];
    PlainStep(body[2..], rest);
    assert body[2..][1..] == body[3..];
    PlainStep(body[3..], rest);
    assert body[3..][1..] == body[4..];
    PlainStep(body[4..], rest);
    assert body[4..][1..] == body[5..];
    PlainStep(body[5..], rest);
    assert body[5..][1..] == body[6..];
    assert body[..6] == [body[0], body[1]] + ([body[2]] + ([body[3]] + ([body[4]] + [body[5]])));
    var r := Scan(Then(body[6..], rest));
    if r.Some? {
      assert body[..6] + r.value.0
             == [body[0], body[1]] + ([body[2]] + ([body[3]] + ([body[4]] + ([body[5]] + r.value.0))));
    }
  }

  lemma PlainStep(body: seq<byte>, rest: Text)
    requires body != [] && body[0] != QUOTE && body[0] != BACKSLASH
    ensures Scan(Then(body, rest)) == Prefix([body[0]], Scan(Then(body[1..], rest)))
  {
  }

  predicate IsSkipped(c: byte) {
    IsSpace(c) || c == COMMA || c == COLON || IsScalarByte(c)
  }

  /** White space, commas, colons and scalars do not affect the scan. */
  lemma {:induction false} SkipRun(run: seq<byte>, rest: Text, depth: nat, key: seq<byte>)
    requires forall i :: 0 <= i < |run| ==> IsSkipped(run[i])
    ensures PeekFrom(Then(run, rest), depth, key) == PeekFrom(rest, depth, key)
  {
    if run != [] {
      SkipRun(run[1..], rest, depth, key);
    }
  }

  lemma {:induction false} SpaceSkipped(run: seq<byte>, rest: Text)
    requires AllSpace(run)
    ensures SkipSpace(Then(run, rest)) == SkipSpace(rest)
  {
    if run != [] {
      SpaceSkipped(run[1..], rest);
    }
  }

  /** A quoted string is either passed over or, at depth 0, taken for the key. */
  lemma StringStep(body: seq<byte>, rest: Text, depth: nat, key: seq<byte>)
    requires IsBody(body)
    ensures PeekFrom(Quoted(body, rest), depth, key)
            == if depth == 0 && body == key then ValueAfterKey(rest) else PeekFrom(rest, depth, key)
  {
    BodyScanned(body, rest);
  }

  /** Nested values leave the scan where it was: depth is balanced and inner strings are not keys. */
  lemma {:induction false} ValuePassed(v: Value, rest: Text, depth: nat, key: seq<byte>)
    requires IsValue(v) && (depth > 0 || !v.Str?)
    ensures PeekFrom(ValueText(v, rest), depth, key) == PeekFrom(rest, depth, key)
    decreases v
  {
    match v
    case Str(body) => StringStep(body, rest, depth, key);
    case Scalar(text) => SkipRun(text, rest, depth, key);
    case Arr(items) => ItemsPassed(items, true, Byte(CLOSE_BRACKET, rest), depth + 1, key);
    case Obj(members) => MembersPassed(members, true, Byte(CLOSE_BRACE, rest), depth + 1, key);
  }

  lemma {:induction false} ItemsPassed(items: Items, first: bool, rest: Text, depth: nat, key: seq<byte>)
    requires AreItems(items) && depth > 0
    ensures PeekFrom(ItemsText(items, first, rest), depth, key) == PeekFrom(rest, depth, key)
    decreases items
  {
    match items
    case NoItems(pad) => SkipRun(pad, rest, depth, key);
    case Item(before, value, after, more) =>
      var tail := ItemsText(more, false, rest);
      SkipRun(before, ValueText(value, Then(after, tail)), depth, key);
      ValuePassed(value, Then(after, tail), depth, key);
      SkipRun(after, tail, depth, key);
      ItemsPassed(more, false, rest, depth, key);
  }

  lemma {:induction false} MembersPassed(members: Members, first: bool, rest: Text, depth: nat, key: seq<byte>)
    requires AreMembers(members) && depth > 0
    ensures PeekFrom(MembersText(members, first, rest), depth, key) == PeekFrom(rest, depth, key)
    decreases members
  {
    match members
    case NoMembers(pad) => SkipRun(pad, rest, depth, key);
    case Member(before, name, afterName, beforeValue, value, after, more) =>
      var tail := MembersText(more, false, rest);
      ToName(members, first, rest, depth, key);
      StringStep(name, AfterName(members, rest), depth, key);
      ToValue(members, rest, depth, key);
      ValuePassed(value, Then(after, tail), depth, key);
      SkipRun(after, tail, depth, key);
      MembersPassed(more, false, rest, depth, key);
  }

  function FromValue(m: Members, rest: Text): Text
    requires m.Member?
  {
    ValueText(m.value, Then(m.after, MembersText(m.rest, false, rest)))
  }

  function AfterName(m: Members, rest: Text): Text
    requires m.Member?
  {
    Then(m.afterName, Byte(COLON, Then(m.beforeValue, FromValue(m, rest))))
  }

  /** Up to the opening quote of a member's name. */
  lemma ToName(m: Members, first: bool, rest: Text, depth: nat, key: seq<byte>)
    requires m.Member? && AreMembers(m)
    ensures PeekFrom(MembersText(m, first, rest), depth, key)
            == PeekFrom(Quoted(m.name, AfterName(m, rest)), depth, key)
  {
    SkipRun(m.before, Quoted(m.name, AfterName(m, rest)), depth, key);
  }

  /** From the end of a member's name to its value. */
  lemma ToValue(m: Members, rest: Text, depth: nat, key: seq<byte>)
    requires m.Member? && AreMembers(m)
    ensures PeekFrom(AfterName(m, rest), depth, key) == PeekFrom(FromValue(m, rest), depth, key)
  {
    SkipRun(m.afterName, Byte(COLON, Then(m.beforeValue, FromValue(m, rest))), depth, key);
    SkipRun(m.beforeValue, FromValue(m, rest), depth, key);
  }

  /** After the key, the value is read if it is a string without escapes. */
  lemma ReadAfterKey(m: Members, rest: Text)
    requires m.Member? && AreMembers(m)
    ensures ValueAfterKey(AfterName(m, rest))
            == if m.value.Str? && BACKSLASH !in m.value.body then Hit(m.value.body) else Miss
  {
    SpaceSkipped(m.afterName, Byte(COLON, Then(m.beforeValue, FromValue(m, rest))));
    SpaceSkipped(m.beforeValue, FromValue(m, rest));
    match m.value
    case Str(body) => BodyScanned(body, Then(m.after, MembersText(m.rest, false, rest)));
    case Scalar(text) => assert IsScalarByte(text[0]);
    case Arr(_) =>
    case Obj(_) =>
  }

  /** After a string value there is no colon, so a value that looks like the key ends the probe. */
  lemma NoColonAfterValue(m: Members, rest: Text)
    requires m.Member? && AreMembers(m)
    ensures ValueAfterKey(Then(m.after, MembersText(m.rest, false, Byte(CLOSE_BRACE, rest)))) == Miss
  {
    SpaceSkipped(m.after, MembersText(m.rest, false, Byte(CLOSE_BRACE, rest)));
    if m.rest.NoMembers? {
      SpaceSkipped(m.rest.pad, Byte(CLOSE_BRACE, rest));
    }
  }

  lemma {:induction false} TopLevelMembers(members: Members, first: bool, rest: Text, key: seq<byte>)
    requires AreMembers(members)
    ensures PeekFrom(MembersText(members, first, Byte(CLOSE_BRACE, rest)), 0, key) == PeekMembers(members, key)
    decreases members
  {
    var close := Byte(CLOSE_BRACE, rest);
    match members
    case NoMembers(pad) => SkipRun(pad, close, 0, key);
    case Member(before, name, afterName, beforeValue, value, after, more) =>
      ToName(members, first, close, 0, key);
      StringStep(name, AfterName(members, close), 0, key);
      if name == key {
        ReadAfterKey(members, close);
      } else {
        ToValue(members, close, 0, key);
        TopLevelValue(members, rest, key);
        if value != Str(key) {
          TopLevelMembers(more, false, rest, key);
        }
      }
  }

  /** At depth 0 a value that is not the key's text is passed; one that is ends the probe. */
  lemma TopLevelValue(m: Members, rest: Text, key: seq<byte>)
    requires m.Member? && AreMembers(m)
    ensures var close := Byte(CLOSE_BRACE, rest);
            PeekFrom(FromValue(m, close), 0, key)
            == if m.value == Str(key) then Miss else PeekFrom(MembersText(m.rest, false, close), 0, key)
  {
    var tail := MembersText(m.rest, false, Byte(CLOSE_BRACE, rest));
    if m.value.Str? {
      StringStep(m.value.body, Then(m.after, tail), 0, key);
    } else {
      ValuePassed(m.value, Then(m.after, tail), 0, key);
    }
    if m.value == Str(key) {
      NoColonAfterValue(m, rest);
    } else {
      SkipRun(m.after, tail, 0, key);
    }
  }

  // ---------------------------------------------------------------------------------------------
  // Main results
  // ---------------------------------------------------------------------------------------------

  /**
   * On every object text of the grammar, with any nesting, white space and escapes, the probe
   * answers exactly what the members say.
   */
  lemma PeekAgreesWithGrammar(lead: seq<byte>, members: Members, trail: Text, key: seq<byte>)
    requires AllSpace(lead) && AreMembers(members)
    ensures Peek(ObjectText(lead, members, trail), key) == PeekMembers(members, key)
  {
    SpaceSkipped(lead, ValueText(Obj(members), trail));
    TopLevelMembers(members, true, trail, key);
  }

  /** Names and string values are compared after decoding (section 7; output in UTF-8). */
  function Decode(s: seq<byte>): seq<byte> {
    if s == [] then []
    else if s[0] != BACKSLASH then [s[0]] + Decode(s[1..])
    else if IsUnicodeEscape(s) then
      var unit := CodeUnit(s);
      if 0xD800 <= unit < 0xDC00 && IsUnicodeEscape(s[6..]) && 0xDC00 <= CodeUnit(s[6..]) < 0xE000 then
        Utf8(0x10000 + (unit - 0xD800) * 0x400 + (CodeUnit(s[6..]) - 0xDC00)) + Decode(s[12..])
      else Utf8(if 0xD800 <= unit < 0xE000 then 0xFFFD else unit) + Decode(s[6..])
    else if |s| >= 2 then [Unescape(s[1])] + Decode(s[2..])
    else s
  }

  function HexDigit(c: byte): (r: nat)
    requires IsHex(c)
    ensures r < 16
  {
    if c <= 0x39 then c - 0x30 else if c <= 0x46 then c - 0x41 + 10 else c - 0x61 + 10
  }

  function CodeUnit(s: seq<byte>): (r: nat)
    requires IsUnicodeEscape(s)
    ensures r < 0x10000
  {
    HexDigit(s[2]) * 0x1000 + HexDigit(s[3]) * 0x100 + HexDigit(s[4]) * 0x10 + HexDigit(s[5])
  }

  function Unescape(c: byte): byte {
    if c == 0x62 then 0x08 else if c == 0x66 then 0x0C else if c == 0x6E then 0x0A
    else if c == 0x72 then 0x0D else if c == 0x74 then 0x09 else c
  }

  function Utf8(cp: nat): (r: seq<byte>)
    requires cp < 0x110000
    ensures |r| <= 4 && (cp < 0x10000 ==> |r| <= 3)
  {
    if cp < 0x80 then [cp]
    else if cp < 0x800 then [0xC0 + cp / 0x40, 0x80 + cp % 0x40]
    else if cp < 0x10000 then [0xE0 + cp / 0x1000, 0x80 + cp / 0x40 % 0x40, 0x80 + cp % 0x40]
    else [0xF0 + cp / 0x40000, 0x80 + cp / 0x1000 % 0x40, 0x80 + cp / 0x40 % 0x40, 0x80 + cp % 0x40]
  }

  lemma {:induction false} DecodePlain(s: seq<byte>)
    requires BACKSLASH !in s
    ensures Decode(s) == s
  {
    if s != [] {
      assert s == [s[0]] + s[1..];
      DecodePlain(s[1..]);
    }
  }

  /** Every escape is longer than what it stands for. */
  lemma {:induction false} DecodeShrinks(s: seq<byte>)
    requires IsBody(s)
    ensures |Decode(s)| <= |s| && (BACKSLASH in s ==> |Decode(s)| < |s|)
    decreases |s|
  {
    if s == [] {
    } else if s[0] != BACKSLASH {
      assert s == [s[0]] + s[1..];
      DecodeShrinks(s[1..]);
    } else if IsUnicodeEscape(s) {
      DecodeShrinks(s[6..]);
      if IsUnicodeEscape(s[6..]) {
        assert s[6..][6..] == s[12..];
        DecodeShrinks(s[12..]);
      }
    } else {
      DecodeShrinks(s[2..]);
    }
  }

  function DecodedNames(members: Members): set<seq<byte>> {
    if members.NoMembers? then {} else {Decode(members.name)} + DecodedNames(members.rest)
  }

  predicate DistinctNames(members: Members) {
    members.NoMembers? || (Decode(members.name) !in DecodedNames(members.rest) && DistinctNames(members.rest))
  }

  /** The value of the member whose decoded name is `key`. */
  function Lookup(members: Members, key: seq<byte>): Option<Value> {
    if members.NoMembers? then None
    else if Decode(members.name) == key then Some(members.value)
    else Lookup(members.rest, key)
  }

  ghost predicate SoundAnswer(members: Members, key: seq<byte>, answer: Peeked) {
    answer.Hit? ==> exists body :: Lookup(members, key) == Some(Str(body)) && Decode(body) == answer.value
  }

  lemma {:induction false} LookupAbsent(members: Members, key: seq<byte>)
    ensures Lookup(members, key).Some? <==> key in DecodedNames(members)
  {
    if members.Member? {
      LookupAbsent(members.rest, key);
    }
  }

  lemma {:induction false} HitInMembers(members: Members, key: seq<byte>)
    requires AreMembers(members) && DistinctNames(members)
    requires BACKSLASH !in key || !IsBody(key)
    requires PeekMembers(members, key).Hit?
    ensures SoundAnswer(members, key, PeekMembers(members, key))
    ensures Lookup(members, key).Some?
  {
    var v := PeekMembers(members, key).value;
    if members.name == key {
      DecodePlain(key);
      DecodePlain(members.value.body);
      assert Lookup(members, key) == Some(Str(v));
    } else {
      HitInMembers(members.rest, key);
      LookupAbsent(members.rest, key);
      assert Decode(members.name) != key;
    }
  }

  /**
   * A hit is right: the member whose decoded name is the key has the string value returned. For
   * every text of the grammar with distinct decoded names, and every key without a backslash.
   */
  lemma PeekSound(lead: seq<byte>, members: Members, trail: Text, key: seq<byte>)
    requires AllSpace(lead) && AreMembers(members) && DistinctNames(members)
    requires BACKSLASH !in key || !IsBody(key)
    ensures SoundAnswer(members, key, Peek(ObjectText(lead, members, trail), key))
  {
    PeekAgreesWithGrammar(lead, members, trail, key);
    if PeekMembers(members, key).Hit? {
      HitInMembers(members, key);
    }
  }

  ghost predicate SoundForKey(key: seq<byte>) {
    forall lead, members, trail :: AllSpace(lead) && AreMembers(members) && DistinctNames(members) ==>
      SoundAnswer(members, key, Peek(ObjectText(lead, members, trail), key))
  }

  /**
   * The key is compared with the raw name, so a key that itself spells an escape sequence matches
   * a member of another name. The probe is sound exactly for the other keys.
   */
  lemma PeekSoundIff(key: seq<byte>)
    ensures SoundForKey(key) <==> BACKSLASH !in key || !IsBody(key)
  {
    if BACKSLASH !in key || !IsBody(key) {
      forall lead, members, trail | AllSpace(lead) && AreMembers(members) && DistinctNames(members)
        ensures SoundAnswer(members, key, Peek(ObjectText(lead, members, trail), key))
      {
        PeekSound(lead, members, trail, key);
      }
    } else {
      var members := Member([], key, [], [], Str([]), [], NoMembers([]));
      PeekAgreesWithGrammar([], members, End, key);
      DecodeShrinks(key);
      assert Lookup(members, key) == None;
      assert AreMembers(members) && DistinctNames(members);
      assert !SoundAnswer(members, key, Peek(ObjectText([], members, End), key));
    }
  }

  function Count(members: Members): nat {
    if members.NoMembers? then 0 else 1 + Count(members.rest)
  }

  /** The members from the n-th on. */
  function FromNth(members: Members, n: nat): (r: Members)
    requires n < Count(members)
    ensures r.Member?
  {
    if n == 0 then members else FromNth(members.rest, n - 1)
  }

  /**
   * The n-th member answers for the key: its raw name is the key, its value a string without escapes, and
   * no member before it has the key as its raw name or as its value.
   */
  ghost predicate Answers(members: Members, key: seq<byte>, n: nat, v: seq<byte>)
    requires n < Count(members)
  {
    && FromNth(members, n).name == key && FromNth(members, n).value == Str(v) && BACKSLASH !in v
    && forall m: nat :: m < n ==> FromNth(members, m).name != key && FromNth(members, m).value != Str(key)
  }

  lemma {:induction false} MembersHitIff(members: Members, key: seq<byte>, v: seq<byte>)
    ensures PeekMembers(members, key) == Hit(v) <==> exists n: nat :: n < Count(members) && Answers(members, key, n, v)
  {
    if members.Member? {
      MembersHitIff(members.rest, key, v);
      if PeekMembers(members, key) == Hit(v) {
        if members.name == key {
          assert Answers(members, key, 0, v);
        } else {
          var n: nat :| n < Count(members.rest) && Answers(members.rest, key, n, v);
          AnswersLater(members, key, n, v);
        }
      }
      if n: nat :| n < Count(members) && Answers(members, key, n, v) {
        if n > 0 {
          assert FromNth(members, 0).name != key && FromNth(members, 0).value != Str(key);
          AnswersEarlier(members, key, n - 1, v);
        }
      }
    }
  }

  lemma AnswersLater(members: Members, key: seq<byte>, n: nat, v: seq<byte>)
    requires members.Member? && n < Count(members.rest) && Answers(members.rest, key, n, v)
    requires members.name != key && members.value != Str(key)
    ensures Answers(members, key, n + 1, v)
  {
    forall m: nat | m < n + 1 ensures FromNth(members, m).name != key && FromNth(members, m).value != Str(key) {
      if m > 0 {
        assert FromNth(members, m) == FromNth(members.rest, m - 1);
      }
    }
  }

  lemma AnswersEarlier(members: Members, key: seq<byte>, n: nat, v: seq<byte>)
    requires members.Member? && n < Count(members.rest) && Answers(members, key, n + 1, v)
    ensures Answers(members.rest, key, n, v)
  {
    forall m: nat | m < n ensures FromNth(members.rest, m).name != key && FromNth(members.rest, m).value != Str(key) {
      assert FromNth(members, m + 1) == FromNth(members.rest, m);
    }
  }

  /** Exactly when the probe hits, and with what, on every object text of the grammar. */
  lemma PeekHitsIff(lead: seq<byte>, members: Members, trail: Text, key: seq<byte>, v: seq<byte>)
    requires AllSpace(lead) && AreMembers(members)
    ensures Peek(ObjectText(lead, members, trail), key) == Hit(v)
            <==> exists n: nat :: n < Count(members) && Answers(members, key, n, v)
  {
    PeekAgreesWithGrammar(lead, members, trail, key);
    MembersHitIff(members, key, v);
  }

  /** Every text is the text of some bytes, so the results above are about what the method reads. */
  function Spell(t: Text): (data: seq<byte>)
    ensures From(data, 0) == t
  {
    if t.End? then []
    else
      var rest := Spell(t.tail);
      FromShift(t.head, rest, 0);
      [t.head] + rest
  }

  lemma {:induction false} FromShift(b: byte, data: seq<byte>, i: nat)
    requires i <= |data|
    ensures From([b] + data, i + 1) == From(data, i)
    decreases |data| - i
  {
    if i < |data| {
      FromShift(b, data, i + 1);
    }
  }
}
