/** The escape decoder of the Control-agent lexer: the action of the JSON string rule in
    agent_lexer.cc, which turns the text between the quotes into the bytes it stands for.

    The reference is the grammar of section 7 of RFC 8259 restricted to what the lexer supports: a
    string is a sequence of units, each spelled in one way and standing for one byte.
 */
module JsonString {
  import opened Text

  type Byte = x: int | 0 <= x < 256

  const QUOTE: Byte := 34
  const SLASH: Byte := 47
  const ZERO: Byte := 48
  const BACKSLASH: Byte := 92

  // ----------------------------------------------------------------- reference

  /** One unit of a JSON string: a byte that stands for itself, a two-character escape, or an
      escape of the form \u00hl. */
  datatype StringUnit = Plain(b: Byte) | Short(letter: Byte) | Hex(h: Byte, l: Byte)

  predicate IsHex(c: Byte) {
    48 <= c <= 57 || 65 <= c <= 70 || 97 <= c <= 102
  }

  function HexValue(c: Byte): (v: Byte)
    requires IsHex(c)
    ensures v < 16
  {
    if c <= 57 then c - 48 else if c <= 70 then c - 55 else c - 87
  }

  /** The letter of a two-character escape and the byte it stands for. */
  function ShortValue(letter: Byte): Option<Byte> {
    if letter == QUOTE || letter == BACKSLASH || letter == SLASH then Some(letter)
    else if letter == 98 then Some(8)
    else if letter == 102 then Some(12)
    else if letter == 110 then Some(10)
    else if letter == 114 then Some(13)
    else if letter == 116 then Some(9)
    else None
  }

  predicate ValidUnit(u: StringUnit) {
    match u
    case Plain(b) => b != QUOTE && b != BACKSLASH && b >= 0x20
    case Short(c) => ShortValue(c).Some?
    case Hex(h, l) => IsHex(h) && IsHex(l)
  }

  function Spell(u: StringUnit): seq<Byte> {
    match u
    case Plain(b) => [b]
    case Short(c) => [BACKSLASH, c]
    case Hex(h, l) => [BACKSLASH, 117, ZERO, ZERO, h, l]
  }

  function Meaning(u: StringUnit): Byte
    requires ValidUnit(u)
  {
    match u
    case Plain(b) => b
    case Short(c) => ShortValue(c).value
    case Hex(h, l) => HexValue(h) * 16 + HexValue(l)
  }

  predicate ValidUnits(us: seq<StringUnit>) {
    forall i :: 0 <= i < |us| ==> ValidUnit(us[i])
  }

  function SpellAll(us: seq<StringUnit>): seq<Byte> {
    if us == [] then [] else Spell(us[0]) + SpellAll(us[1..])
  }

  function MeaningAll(us: seq<StringUnit>): seq<Byte>
    requires ValidUnits(us)
  {
    if us == [] then [] else [Meaning(us[0])] + MeaningAll(us[1..])
  }

  /** The table of section 7 of RFC 8259: each letter and the character its escape stands for. */
  const ESCAPES: seq<(char, char)> :=
    [('"', '"'), ('\\', '\\'), ('/', '/'), ('b', '\U{8}'), ('f', '\U{C}'), ('n', '\n'), ('r', '\r'), ('t', '\t')]

  /** The two-character escapes are those of the table and no others. */
  lemma ShortEscapesExactly(letter: Byte, value: Byte)
    ensures ShortValue(letter) == Some(value)
            <==> exists i :: 0 <= i < |ESCAPES| && letter == ESCAPES[i].0 as int && value == ESCAPES[i].1 as int
  {
    if ShortValue(letter) == Some(value) {
      var i := if letter == QUOTE then 0 else if letter == BACKSLASH then 1 else if letter == SLASH then 2
               else if letter == 98 then 3 else if letter == 102 then 4 else if letter == 110 then 5
               else if letter == 114 then 6 else 7;
      assert letter == ESCAPES[i].0 as int && value == ESCAPES[i].1 as int;
    }
  }

  /** Hexadecimal digits, in either letter case, have the value of their place. */
  lemma HexDigitsExactly(c: Byte, v: Byte)
    ensures IsHex(c) && HexValue(c) == v
            <==> v < 16 && (c == "0123456789abcdef"[v] as int || c == "0123456789ABCDEF"[v] as int)
  {
  }

  // ----------------------------------------------------------------- the decoder

  /** The unit a text starts with, or nothing when the decoder reports an error there. */
  function ReadUnit(raw: seq<Byte>): (r: Option<StringUnit>)
    requires raw != []
    ensures r.Some? ==> ValidUnit(r.value) && Spell(r.value) <= raw
  {
    if raw[0] == QUOTE then None
    else if raw[0] != BACKSLASH then if raw[0] < 0x20 then None else Some(Plain(raw[0]))
    else if |raw| < 2 then None
    else if raw[1] == 117 then
      if |raw| < 6 || raw[2] != ZERO || raw[3] != ZERO || !IsHex(raw[4]) || !IsHex(raw[5]) then None
      else assert Spell(Hex(raw[4], raw[5])) == raw[..6]; Some(Hex(raw[4], raw[5]))
    else if ShortValue(raw[1]).None? then None
    else assert Spell(Short(raw[1])) == raw[..2]; Some(Short(raw[1]))
  }

  function Prepend(head: seq<Byte>, r: Result<seq<Byte>>): Result<seq<Byte>> {
    if r.Threw? then Threw else Ok(head + r.value)
  }

  /** What the decoder returns: unit after unit, or an error. */
  function Decode(raw: seq<Byte>): Result<seq<Byte>>
    decreases |raw|
  {
    if raw == [] then Ok([])
    else
      var u := ReadUnit(raw);
      if u.None? then Threw else Prepend([Meaning(u.value)], Decode(raw[|Spell(u.value)|..]))
  }

  lemma {:induction false} DecodeStep(raw: seq<Byte>, u: StringUnit)
    requires raw != [] && ReadUnit(raw) == Some(u)
    ensures Decode(raw) == Prepend([Meaning(u)], Decode(raw[|Spell(u)|..]))
  {
  }

  lemma PrependTwice(a: seq<Byte>, b: seq<Byte>, r: Result<seq<Byte>>)
    ensures Prepend(a, Prepend(b, r)) == Prepend(a + b, r)
  {
    if r.Ok? { assert a + (b + r.value) == (a + b) + r.value; }
  }

  lemma PrependNothing(r: Result<seq<Byte>>)
    ensures Prepend([], r) == r
  {
    if r.Ok? { assert [] + r.value == r.value; }
  }

  /** Reading stops at the same unit whatever follows it. */
  lemma ReadUnitOf(u: StringUnit, rest: seq<Byte>)
    requires ValidUnit(u)
    ensures ReadUnit(Spell(u) + rest) == Some(u)
  {
    var raw := Spell(u) + rest;
    assert raw[0] == Spell(u)[0];
    if !u.Plain? { assert raw[1] == Spell(u)[1]; }
  }

  // ----------------------------------------------------------------- decoder against grammar

  /** One byte alone decodes, to itself, exactly when it is no quote, no backslash and no control
      character. */
  lemma PlainExactly(b: Byte)
    ensures Decode([b]).Ok? <==> b != '"' as int && b != '\\' as int && b >= ' ' as int
    ensures Decode([b]).Ok? ==> Decode([b]) == Ok([b])
  {
    if ReadUnit([b]).Some? {
      DecodeStep([b], Plain(b));
      assert [b][1..] == [] && [b] + [] == [b];
    }
  }

  /** Every well-formed text is decoded to exactly what it stands for. */
  lemma {:induction false} DecodesWellFormed(us: seq<StringUnit>)
    requires ValidUnits(us)
    ensures Decode(SpellAll(us)) == Ok(MeaningAll(us))
    decreases |us|
  {
    if us != [] {
      var rest := SpellAll(us[1..]);
      ReadUnitOf(us[0], rest);
      DecodesWellFormed(us[1..]);
      DecodeStep(Spell(us[0]) + rest, us[0]);
      assert (Spell(us[0]) + rest)[|Spell(us[0])|..] == rest;
    }
  }

  lemma ConsUnit(u: StringUnit, us: seq<StringUnit>)
    requires ValidUnit(u) && ValidUnits(us)
    ensures ValidUnits([u] + us)
    ensures SpellAll([u] + us) == Spell(u) + SpellAll(us)
    ensures MeaningAll([u] + us) == [Meaning(u)] + MeaningAll(us)
  {
    assert ([u] + us)[1..] == us;
  }

  /** The first unit of a text that decodes, and what is left. */
  lemma {:induction false} FirstUnit(raw: seq<Byte>) returns (u: StringUnit, rest: seq<Byte>)
    requires raw != [] && Decode(raw).Ok?
    ensures ValidUnit(u) && raw == Spell(u) + rest && |rest| < |raw|
    ensures Decode(rest).Ok? && Decode(raw).value == [Meaning(u)] + Decode(rest).value
  {
    u := ReadUnit(raw).value;
    rest := raw[|Spell(u)|..];
    DecodeStep(raw, u);
  }

  /** Whatever decodes is well-formed. */
  lemma {:induction false} DecodesOnlyWellFormed(raw: seq<Byte>) returns (us: seq<StringUnit>)
    requires Decode(raw).Ok?
    ensures ValidUnits(us) && SpellAll(us) == raw && MeaningAll(us) == Decode(raw).value
    decreases |raw|
  {
    if raw == [] {
      us := [];
    } else {
      var u, rest := FirstUnit(raw);
      var tail := DecodesOnlyWellFormed(rest);
      us := [u] + tail;
      ConsUnit(u, tail);
    }
  }

  /** The decoder accepts exactly the texts of the grammar. */
  lemma AcceptsExactlyGrammar(raw: seq<Byte>)
    ensures Decode(raw).Ok? <==> exists us :: ValidUnits(us) && SpellAll(us) == raw
  {
    if Decode(raw).Ok? {
      var us := DecodesOnlyWellFormed(raw);
    } else if exists us :: ValidUnits(us) && SpellAll(us) == raw {
      var us :| ValidUnits(us) && SpellAll(us) == raw;
      DecodesWellFormed(us);
    }
  }

  // ----------------------------------------------------------------- escaping any bytes

  function HexDigit(v: Byte): (c: Byte)
    requires v < 16
    ensures IsHex(c) && HexValue(c) == v
  {
    if v < 10 then v + 48 else v + 87
  }

  /** A way to write any byte: as itself where that is allowed, escaped otherwise. */
  function Escape(b: Byte): (u: StringUnit)
    ensures ValidUnit(u) && Meaning(u) == b
  {
    if b == QUOTE || b == BACKSLASH then Short(b)
    else if b < 0x20 then Hex(HexDigit(b / 16), HexDigit(b % 16))
    else Plain(b)
  }

  function EscapeAll(bytes: seq<Byte>): (us: seq<StringUnit>)
    ensures ValidUnits(us) && MeaningAll(us) == bytes
  {
    if bytes == [] then [] else
      var tail := EscapeAll(bytes[1..]);
      var us := [Escape(bytes[0])] + tail;
      assert us[1..] == tail;
      us
  }

  /** Every byte string has a spelling that decodes back to it. */
  lemma {:induction false} RoundTrip(bytes: seq<Byte>)
    ensures Decode(SpellAll(EscapeAll(bytes))) == Ok(bytes)
  {
    DecodesWellFormed(EscapeAll(bytes));
  }

  // ----------------------------------------------------------------- the loop

  /** The digits of an escape of the form \u00hl, whose backslash is at `pos`. */
  method ReadHex(raw: seq<Byte>, pos: nat) returns (r: Option<Byte>)
    requires pos + 1 < |raw| && raw[pos] == BACKSLASH && raw[pos + 1] == 117
    ensures r == (var u := ReadUnit(raw[pos..]); if u.None? then None else Some(Meaning(u.value)))
    ensures r.Some? ==> ReadUnit(raw[pos..]).value.Hex? && pos + 5 < |raw|
  {
    ghost var rest := raw[pos..];
    assert rest[0] == BACKSLASH && rest[1] == 117;
    if pos + 6 > |raw| { return None; }
    assert rest[2] == raw[pos + 2] && rest[3] == raw[pos + 3] && rest[4] == raw[pos + 4] && rest[5] == raw[pos + 5];
    if raw[pos + 2] != ZERO || raw[pos + 3] != ZERO { return None; }
    if !IsHex(raw[pos + 4]) { return None; }
    var b := HexValue(raw[pos + 4]) * 16;
    if !IsHex(raw[pos + 5]) { return None; }
    r := Some(b + HexValue(raw[pos + 5]));
  }

  /** An escape, whose backslash is at `pos`: its byte and its length. */
  method ReadEscape(raw: seq<Byte>, pos: nat) returns (r: Option<(Byte, nat)>)
    requires pos < |raw| && raw[pos] == BACKSLASH
    ensures r == (var u := ReadUnit(raw[pos..]); if u.None? then None else Some((Meaning(u.value), |Spell(u.value)|)))
  {
    ghost var rest := raw[pos..];
    assert rest[0] == BACKSLASH;
    if pos + 1 >= |raw| { return None; }
    assert rest[1] == raw[pos + 1];
    if raw[pos + 1] == 117 {
      var b := ReadHex(raw, pos);
      r := if b.None? then None else Some((b.value, 6));
    } else {
      var b := ShortValue(raw[pos + 1]);
      r := if b.None? then None else Some((b.value, 2));
    }
  }

  /** The unit at `pos`: its byte and its length, or an error. */
  method NextByte(raw: seq<Byte>, pos: nat) returns (r: Option<(Byte, nat)>)
    requires pos < |raw|
    ensures r == (var u := ReadUnit(raw[pos..]); if u.None? then None else Some((Meaning(u.value), |Spell(u.value)|)))
  {
    var c := raw[pos];
    assert raw[pos..][0] == c;
    if c == QUOTE {
      r := None;
    } else if c == BACKSLASH {
      r := ReadEscape(raw, pos);
    } else if c < 0x20 {
      r := None;
    } else {
      r := Some((c, 1));
    }
  }

  /** Decoding from a position on, with the bytes decoded so far. */
  function DecodeFrom(raw: seq<Byte>, pos: nat, decoded: seq<Byte>): Result<seq<Byte>>
    requires pos <= |raw|
    decreases |raw| - pos
  {
    if pos == |raw| then Ok(decoded)
    else
      var u := ReadUnit(raw[pos..]);
      if u.None? then Threw
      else DecodeFrom(raw, pos + |Spell(u.value)|, decoded + [Meaning(u.value)])
  }

  lemma {:induction false} DecodeFromStep(raw: seq<Byte>, pos: nat, decoded: seq<Byte>)
    requires pos < |raw|
    ensures var u := ReadUnit(raw[pos..]);
            if u.None? then DecodeFrom(raw, pos, decoded) == Threw && Decode(raw[pos..]) == Threw
            else && pos + |Spell(u.value)| <= |raw|
                 && DecodeFrom(raw, pos, decoded) == DecodeFrom(raw, pos + |Spell(u.value)|, decoded + [Meaning(u.value)])
  {
  }

  /** One unit further, for both forms at once. */
  lemma {:induction false} OneUnitOn(raw: seq<Byte>, pos: nat, decoded: seq<Byte>) returns (pos': nat, decoded': seq<Byte>)
    requires pos < |raw| && ReadUnit(raw[pos..]).Some?
    ensures pos < pos' <= |raw|
    ensures DecodeFrom(raw, pos, decoded) == DecodeFrom(raw, pos', decoded')
    ensures Prepend(decoded, Decode(raw[pos..])) == Prepend(decoded', Decode(raw[pos'..]))
  {
    var u := ReadUnit(raw[pos..]).value;
    pos', decoded' := pos + |Spell(u)|, decoded + [Meaning(u)];
    assert pos < pos' <= |raw| && DecodeFrom(raw, pos, decoded) == DecodeFrom(raw, pos', decoded') by {
      DecodeFromStep(raw, pos, decoded);
    }
    assert Prepend(decoded, Decode(raw[pos..])) == Prepend(decoded', Decode(raw[pos'..])) by {
      Advance(raw, pos, decoded, u);
    }
  }

  lemma {:induction false} DecodeFromIs(raw: seq<Byte>, pos: nat, decoded: seq<Byte>)
    requires pos <= |raw|
    ensures DecodeFrom(raw, pos, decoded) == Prepend(decoded, Decode(raw[pos..]))
    decreases |raw| - pos
  {
    if pos == |raw| {
      assert raw[pos..] == [] && decoded + [] == decoded;
    } else if ReadUnit(raw[pos..]).None? {
      DecodeFromStep(raw, pos, decoded);
    } else {
      var pos', decoded' := OneUnitOn(raw, pos, decoded);
      DecodeFromIs(raw, pos', decoded');
    }
  }

  /** Moving one decoded unit from the text still to read to the bytes already read. */
  lemma {:induction false} Advance(raw: seq<Byte>, pos: nat, decoded: seq<Byte>, u: StringUnit)
    requires pos < |raw| && ReadUnit(raw[pos..]) == Some(u)
    ensures pos + |Spell(u)| <= |raw|
    ensures Prepend(decoded, Decode(raw[pos..])) == Prepend(decoded + [Meaning(u)], Decode(raw[pos + |Spell(u)|..]))
  {
    var rest := raw[pos..];
    DecodeStep(rest, u);
    assert rest[|Spell(u)|..] == raw[pos + |Spell(u)|..];
    PrependTwice(decoded, [Meaning(u)], Decode(rest[|Spell(u)|..]));
  }

  /** The loop of the lexer action, every index in bounds, against `Decode`. */
  method DecodeString(raw: seq<Byte>) returns (r: Result<seq<Byte>>)
    ensures r == Decode(raw)
  {
    var decoded: seq<Byte> := [];
    var pos := 0;
    ghost var all := DecodeFrom(raw, 0, []);
    assert all == Decode(raw) by {
      DecodeFromIs(raw, 0, []);
      assert raw[0..] == raw;
      PrependNothing(Decode(raw));
    }
    while pos < |raw|
      invariant 0 <= pos <= |raw|
      invariant all == DecodeFrom(raw, pos, decoded)
    {
      var b := NextByte(raw, pos);
      if b.None? { return Threw; }
      decoded := decoded + [b.value.0];
      pos := pos + b.value.1;
    }
    r := Ok(decoded);
  }
}
