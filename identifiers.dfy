/** Identifiers of the flashcard store.

    A `java.util.UUID` is a 128-bit value; the store never looks inside it
    except to render it as text, which Java does in the canonical form
    `xxxxxxxx-xxxx-xxxx-xxxx-xxxxxxxxxxxx` (32 lower-case hexadecimal digits,
    most significant first, grouped 8-4-4-4-12). Fresh identifiers come from
    `UUID.randomUUID()`; in the model they are supplied by the caller.

    Cards, tags and decks use distinct wrapper types around the same value, so
    a tag identifier can never stand where a card identifier is expected. */
module Identifiers {
  import opened Wrappers

  /** 16^k, the number of values k hexadecimal digits can spell. */
  function Pow16(k: nat): (p: nat)
    ensures p >= 1
  {
    if k == 0 then 1 else 16 * Pow16(k - 1)
  }

  /** A 128-bit unsigned value (16^32 == 2^128). */
  type Bits128 = n: nat | n < Pow16(32)

  datatype Uuid = Uuid(value: Bits128)

  datatype CardId = CardId(uuid: Uuid)
  datatype TagId = TagId(uuid: Uuid)
  datatype DeckId = DeckId(uuid: Uuid)

  predicate IsHexDigit(ch: char) {
    '0' <= ch <= '9' || 'a' <= ch <= 'f'
  }

  /** The value of one lower-case hexadecimal digit, or None for any other character. */
  function DigitValue(ch: char): (r: Option<nat>)
    ensures r.Some? <==> IsHexDigit(ch)
    ensures r.Some? ==> r.value < 16
  {
    if '0' <= ch <= '9' then Some(ch as int - '0' as int)
    else if 'a' <= ch <= 'f' then Some(ch as int - 'a' as int + 10)
    else None
  }

  /** The lower-case digit for a value below 16. */
  function HexDigit(d: nat): (ch: char)
    requires d < 16
    ensures IsHexDigit(ch) && DigitValue(ch) == Some(d)
  {
    if d < 10 then ('0' as int + d) as char else ('a' as int + d - 10) as char
  }

  /** The last k hexadecimal digits of n, most significant first, padded with '0'. */
  function Hex(n: nat, k: nat): (s: string)
    ensures |s| == k
    ensures forall i :: 0 <= i < k ==> IsHexDigit(s[i])
  {
    if k == 0 then [] else Hex(n / 16, k - 1) + [HexDigit(n % 16)]
  }

  /** Reads a string of lower-case hexadecimal digits, most significant first. */
  function ParseHex(s: string): (r: Option<nat>)
    ensures r.Some? <==> forall i :: 0 <= i < |s| ==> IsHexDigit(s[i])
    ensures r.Some? ==> r.value < Pow16(|s|)
  {
    if s == [] then Some(0)
    else
      var front := s[..|s| - 1];
      assert forall i :: 0 <= i < |front| ==> front[i] == s[i];
      var prefix := ParseHex(front);
      var last := DigitValue(s[|s| - 1]);
      if prefix.Some? && last.Some? then
        assert prefix.value * 16 + last.value < Pow16(|s|) by {
          assert prefix.value + 1 <= Pow16(|s| - 1);
          assert (prefix.value + 1) * 16 <= Pow16(|s| - 1) * 16;
        }
        Some(prefix.value * 16 + last.value)
      else None
  }

  /** Writing n in k digits and reading it back gives n, when n fits in k digits. */
  lemma {:induction false} HexRoundTrip(n: nat, k: nat)
    requires n < Pow16(k)
    ensures ParseHex(Hex(n, k)) == Some(n)
  {
    if k > 0 {
      var s := Hex(n, k);
      assert s[..|s| - 1] == Hex(n / 16, k - 1);
      HexRoundTrip(n / 16, k - 1);
    }
  }

  /** Reading a digit string and writing the value back in as many digits gives the string. */
  lemma {:induction false} ParseHexRoundTrip(s: string)
    requires ParseHex(s).Some?
    ensures Hex(ParseHex(s).value, |s|) == s
  {
    if s != [] {
      var front := s[..|s| - 1];
      var p := ParseHex(front).value;
      var d := DigitValue(s[|s| - 1]).value;
      ParseHexRoundTrip(front);
      var n := p * 16 + d;
      assert n / 16 == p && n % 16 == d;
      assert HexDigit(d) == s[|s| - 1];
      assert s == front + [s[|s| - 1]];
    }
  }

  /** Positions of the four hyphens in the canonical text form. */
  predicate IsHyphenPosition(i: int) {
    i == 8 || i == 13 || i == 18 || i == 23
  }

  /** The text form of a UUID as `UUID.toString()` produces it. */
  function Render(u: Uuid): (s: string)
    ensures |s| == 36
    ensures forall i :: 0 <= i < 36 ==> if IsHyphenPosition(i) then s[i] == '-' else IsHexDigit(s[i])
  {
    var h := Hex(u.value, 32);
    h[..8] + "-" + h[8..12] + "-" + h[12..16] + "-" + h[16..20] + "-" + h[20..]
  }

  /** The 32 digits of a 36-character text form, hyphen positions dropped. */
  function Digits(s: string): (d: string)
    requires |s| == 36
    ensures |d| == 32
  {
    s[..8] + s[9..13] + s[14..18] + s[19..23] + s[24..]
  }

  /** Reads the canonical text form back into a UUID; None for any other text. */
  function Parse(s: string): (r: Option<Uuid>)
  {
    if |s| != 36 || s[8] != '-' || s[13] != '-' || s[18] != '-' || s[23] != '-' then None
    else
      match ParseHex(Digits(s))
      case None => None
      case Some(v) => Some(Uuid(v))
  }

  /** Parsing the rendered form of u gives back u. */
  lemma RenderParse(u: Uuid)
    ensures Parse(Render(u)) == Some(u)
  {
    var h := Hex(u.value, 32);
    var s := Render(u);
    assert s == h[..8] + "-" + h[8..12] + "-" + h[12..16] + "-" + h[16..20] + "-" + h[20..];
    assert s[..8] == h[..8] && s[9..13] == h[8..12] && s[14..18] == h[12..16];
    assert s[19..23] == h[16..20] && s[24..] == h[20..];
    assert h == h[..8] + h[8..12] + h[12..16] + h[16..20] + h[20..];
    HexRoundTrip(u.value, 32);
  }

  /** Any text Parse accepts is exactly the rendered form of what it returns. */
  lemma ParseRender(s: string, u: Uuid)
    requires Parse(s) == Some(u)
    ensures Render(u) == s
  {
    var d := Digits(s);
    ParseHexRoundTrip(d);
    assert Hex(u.value, 32) == d;
    assert s == d[..8] + "-" + d[8..12] + "-" + d[12..16] + "-" + d[16..20] + "-" + d[20..];
  }

  /** Distinct UUIDs have distinct text forms. */
  lemma RenderInjective(u1: Uuid, u2: Uuid)
    requires Render(u1) == Render(u2)
    ensures u1 == u2
  {
    RenderParse(u1);
    RenderParse(u2);
  }
}
