/**
 * Foundation's `UUID` as the chat client uses it: `uuidString` gives the
 * canonical text form (upper-case hexadecimal, grouped 8-4-4-4-12), and
 * `UUID(uuidString:)` parses that form in either letter case.
 */
module Uuids {
  import opened Wrappers

  type Nibble = x: int | 0 <= x < 16

  /** The 128 bits of a UUID, as 32 hexadecimal digits. */
  type Uuid = s: seq<Nibble> | |s| == 32 witness seq(32, _ => 0)

  const UuidStringLength: nat := 36

  /** Positions of the four hyphens in the 36-character text form. */
  predicate IsDashPosition(i: int) {
    i == 8 || i == 13 || i == 18 || i == 23
  }

  /** The digit index shown at text position `i` (for a position that is not a hyphen). */
  function DigitIndex(i: nat): nat {
    if i < 8 then i
    else if i < 13 then i - 1
    else if i < 18 then i - 2
    else if i < 23 then i - 3
    else i - 4
  }

  /** The text position at which digit `k` is shown. */
  function CharPosition(k: nat): (p: nat)
    requires k < 32
    ensures p < UuidStringLength && !IsDashPosition(p) && DigitIndex(p) == k
  {
    if k < 8 then k
    else if k < 12 then k + 1
    else if k < 16 then k + 2
    else if k < 20 then k + 3
    else k + 4
  }

  /** The hexadecimal digit for `n`, a capital letter when `upper` and a small one otherwise. */
  function HexDigit(n: Nibble, upper: bool): (c: char)
    ensures HexValue(c) == Some(n)
    ensures n >= 10 ==> (upper <==> 'A' <= c <= 'F')
  {
    if upper then "0123456789ABCDEF"[n] else "0123456789abcdef"[n]
  }

  /** The value of a hexadecimal digit in either case. */
  function HexValue(c: char): (r: Option<Nibble>)
    ensures r.Some? <==> ('0' <= c <= '9' || 'a' <= c <= 'f' || 'A' <= c <= 'F')
  {
    if '0' <= c <= '9' then Some(c as int - '0' as int)
    else if 'a' <= c <= 'f' then Some(c as int - 'a' as int + 10)
    else if 'A' <= c <= 'F' then Some(c as int - 'A' as int + 10)
    else None
  }

  predicate IsUuidText(s: string) {
    && |s| == UuidStringLength
    && forall i | 0 <= i < UuidStringLength ::
         if IsDashPosition(i) then s[i] == '-' else HexValue(s[i]).Some?
  }

  /** The 8-4-4-4-12 text of `u`, its digits in the case `upper` selects. */
  function UuidText(u: Uuid, upper: bool): (s: string)
    ensures IsUuidText(s)
    ensures forall k | 0 <= k < 32 :: HexValue(s[CharPosition(k)]) == Some(u[k])
  {
    seq(UuidStringLength, i requires 0 <= i < UuidStringLength =>
      if IsDashPosition(i) then '-' else HexDigit(u[DigitIndex(i)], upper))
  }

  /** `uuid.uuidString`: upper-case digits. */
  function UuidString(u: Uuid): (s: string)
    ensures IsUuidText(s)
    ensures forall i | 0 <= i < UuidStringLength && !IsDashPosition(i) :: !('a' <= s[i] <= 'f')
  {
    UuidText(u, true)
  }

  /**
   * The text a PostgreSQL `uuid` column is output as: the same 8-4-4-4-12
   * grouping in lower-case hexadecimal.
   */
  function StoreUuidText(u: Uuid): (s: string)
    ensures IsUuidText(s)
    ensures forall i | 0 <= i < UuidStringLength && !IsDashPosition(i) :: !('A' <= s[i] <= 'F')
  {
    UuidText(u, false)
  }

  /** `UUID(uuidString: s)`: nil unless `s` is 8-4-4-4-12 hexadecimal digits. */
  function ParseUuid(s: string): (r: Option<Uuid>)
    ensures r.Some? <==> IsUuidText(s)
  {
    if IsUuidText(s) then
      Some(seq(32, k requires 0 <= k < 32 => HexValue(s[CharPosition(k)]).value))
    else
      None
  }

  /** `s` is the canonical text of some UUID: parsing and printing it gives it back. */
  predicate IsCanonical(s: string) {
    ParseUuid(s).Some? && UuidString(ParseUuid(s).value) == s
  }

  /** Parsing the canonical text of a UUID gives that UUID back. */
  lemma ParseUuidString(u: Uuid)
    ensures ParseUuid(UuidString(u)) == Some(u)
  {
    ParseUuidText(u, true);
  }

  /** Parsing the text of a UUID, in either case, gives that UUID back. */
  lemma ParseUuidText(u: Uuid, upper: bool)
    ensures ParseUuid(UuidText(u, upper)) == Some(u)
  {
    var s := UuidText(u, upper);
    var v := ParseUuid(s).value;
    forall k | 0 <= k < 32 ensures v[k] == u[k] {
      assert HexValue(s[CharPosition(k)]) == Some(u[k]);
    }
    assert v == u;
  }

  /** Every `uuidString` is canonical, so it is a fixed point of parse-then-print. */
  lemma UuidStringIsCanonical(u: Uuid)
    ensures IsCanonical(UuidString(u))
  {
    ParseUuidString(u);
  }

  /** Printing is injective: two UUIDs with the same text are the same UUID. */
  lemma UuidStringInjective(u: Uuid, w: Uuid)
    requires UuidString(u) == UuidString(w)
    ensures u == w
  {
    ParseUuidString(u);
    ParseUuidString(w);
  }

  /** Parsing any accepted text and printing it yields a canonical text. */
  lemma ParseThenPrintIsCanonical(s: string)
    requires ParseUuid(s).Some?
    ensures IsCanonical(UuidString(ParseUuid(s).value))
  {
    UuidStringIsCanonical(ParseUuid(s).value);
  }

  /** The store's lower-case text parses back to the same UUID. */
  lemma ParseStoreUuidText(u: Uuid)
    ensures ParseUuid(StoreUuidText(u)) == Some(u)
  {
    ParseUuidText(u, false);
  }

  /**
   * The store's text and `uuidString` name the same UUID, but differ as
   * strings as soon as one digit is a letter (10 to 15).
   */
  lemma StoreTextDiffersFromUuidString(u: Uuid, k: nat)
    requires k < 32 && u[k] >= 10
    ensures StoreUuidText(u) != UuidString(u)
    ensures ParseUuid(StoreUuidText(u)) == ParseUuid(UuidString(u))
  {
    var p := CharPosition(k);
    assert StoreUuidText(u)[p] != UuidString(u)[p];
    ParseStoreUuidText(u);
    ParseUuidString(u);
  }

  /** `UUID(uuidString: s) ?? fallback` */
  function UuidOr(s: string, fallback: Uuid): (u: Uuid)
    ensures ParseUuid(s).Some? ==> u == ParseUuid(s).value
    ensures ParseUuid(s).None? ==> u == fallback
  {
    match ParseUuid(s)
    case Some(u) => u
    case None => fallback
  }

  /** On canonical text the fallback is never taken, and the text is recovered. */
  lemma UuidOrCanonical(s: string, fallback: Uuid)
    requires IsCanonical(s)
    ensures UuidString(UuidOr(s, fallback)) == s
  {
  }
}
