/**
 * BaseRepository: how the repositories put hex values into SQL text and read
 * bytea columns back as hex. VerifyHex belongs to the utility service, whose
 * code is not part of this model; it is a parameter.
 */
module BaseRepository {
  import opened Wrappers

  newtype byte = x: int | 0 <= x < 256

  // ---------------------------------------------------------------------
  // TransformHex
  // ---------------------------------------------------------------------

  const SqlNull := "NULL"
  const LiteralPrefix := "'\\x"
  const LiteralSuffix := "'::bytea"
  const HexRejected := "HEX value is wrong"

  /**
   * TransformHex: a null or empty input is the SQL NULL; an input VerifyHex
   * rejects is an error; any other becomes a bytea literal around the input.
   */
  function TransformHex(hexInput: Option<string>, verifyHex: string -> bool): (r: Result<string, string>)
    ensures (hexInput.None? || hexInput.value == "") ==> r == Ok(SqlNull)
    ensures hexInput.Some? && hexInput.value != "" ==> (r.Err? <==> !verifyHex(hexInput.value))
    ensures r.Err? ==> r.error == HexRejected
    ensures r.Ok? && r.value != SqlNull ==> hexInput.Some? && LiteralPayload(r.value) == Some(hexInput.value)
    ensures hexInput.Some? && hexInput.value != "" && verifyHex(hexInput.value) ==>
              r == Ok(LiteralPrefix + hexInput.value + LiteralSuffix)
  {
    if hexInput.None? || hexInput.value == "" then Ok(SqlNull)
    else if !verifyHex(hexInput.value) then Err(HexRejected)
    else Ok(LiteralPrefix + hexInput.value + LiteralSuffix)
  }

  /** Reading a bytea literal back: what lies between the prefix and the suffix, if it has both. */
  function LiteralPayload(lit: string): Option<string>
  {
    if |lit| >= |LiteralPrefix| + |LiteralSuffix|
       && lit[..|LiteralPrefix|] == LiteralPrefix
       && lit[|lit| - |LiteralSuffix|..] == LiteralSuffix
    then Some(lit[|LiteralPrefix|..|lit| - |LiteralSuffix|])
    else None
  }

  /** The SQL NULL is never taken for a literal. */
  lemma NullIsNoLiteral()
    ensures LiteralPayload(SqlNull) == None
  {
  }

  /**
   * TransformHex loses nothing: two inputs with the same SQL text are the
   * same input, or both null-or-empty.
   */
  lemma TransformHexInjective(a: Option<string>, b: Option<string>, verifyHex: string -> bool)
    requires TransformHex(a, verifyHex).Ok? && TransformHex(a, verifyHex) == TransformHex(b, verifyHex)
    ensures a == b || ((a.None? || a.value == "") && (b.None? || b.value == ""))
  {
    if TransformHex(a, verifyHex).value != SqlNull {
      assert LiteralPayload(TransformHex(a, verifyHex).value) == Some(a.value);
    }
  }

  // ---------------------------------------------------------------------
  // Hex digits
  // ---------------------------------------------------------------------

  function UpperDigit(d: int): char
    requires 0 <= d < 16
  {
    if d < 10 then ('0' as int + d) as char else ('A' as int + d - 10) as char
  }

  function LowerDigit(d: int): char
    requires 0 <= d < 16
  {
    if d < 10 then ('0' as int + d) as char else ('a' as int + d - 10) as char
  }

  /** ToLowerInvariant on one character (only ASCII letters occur here). */
  function LowerChar(c: char): char
  {
    if 'A' <= c <= 'Z' then (c as int - 'A' as int + 'a' as int) as char else c
  }

  /** The value of a hex digit of either case. */
  function DigitValue(c: char): Option<int>
  {
    if '0' <= c <= '9' then Some(c as int - '0' as int)
    else if 'a' <= c <= 'f' then Some(c as int - 'a' as int + 10)
    else if 'A' <= c <= 'F' then Some(c as int - 'A' as int + 10)
    else None
  }

  // ---------------------------------------------------------------------
  // ReadHexFromBytea
  // ---------------------------------------------------------------------

  /** BitConverter.ToString: two upper-case digits per byte, separated by dashes. */
  function Dashed(bytes: seq<byte>): string
    decreases |bytes|
  {
    if |bytes| == 0 then ""
    else if |bytes| == 1 then [UpperDigit(bytes[0] as int / 16), UpperDigit(bytes[0] as int % 16)]
    else [UpperDigit(bytes[0] as int / 16), UpperDigit(bytes[0] as int % 16), '-'] + Dashed(bytes[1..])
  }

  /** Replace("-", ""). */
  function RemoveDashes(s: string): string
    decreases |s|
  {
    if s == "" then "" else (if s[0] == '-' then "" else [s[0]]) + RemoveDashes(s[1..])
  }

  /** ToLowerInvariant. */
  function Lower(s: string): string
    decreases |s|
  {
    if s == "" then "" else [LowerChar(s[0])] + Lower(s[1..])
  }

  /** The hex text of a bytea column: None for a NULL column. */
  function ReadHexFromBytea(column: Option<seq<byte>>): Option<string>
  {
    match column
    case None => None
    case Some(bytes) => Some(Lower(RemoveDashes(Dashed(bytes))))
  }

  /** Independent reference: two lower-case hex digits per byte, in byte order, nothing between. */
  function LowerHex(bytes: seq<byte>): (s: string)
    ensures |s| == 2 * |bytes|
    decreases |bytes|
  {
    if bytes == [] then "" else [LowerDigit(bytes[0] as int / 16), LowerDigit(bytes[0] as int % 16)] + LowerHex(bytes[1..])
  }

  /** Two hex digits per byte, in either case. */
  function ParseHex(s: string): Option<seq<byte>>
    decreases |s|
  {
    if s == "" then Some([])
    else if |s| == 1 then None
    else
      match (DigitValue(s[0]), DigitValue(s[1]), ParseHex(s[2..]))
      case (Some(hi), Some(lo), Some(rest)) => Some([(hi * 16 + lo) as byte] + rest)
      case _ => None
  }

  lemma {:induction false} RemoveDashesAppend(a: string, b: string)
    ensures RemoveDashes(a + b) == RemoveDashes(a) + RemoveDashes(b)
    decreases |a|
  {
    if a != "" {
      assert (a + b)[1..] == a[1..] + b;
      RemoveDashesAppend(a[1..], b);
    } else {
      assert a + b == b;
    }
  }

  lemma {:induction false} LowerAppend(a: string, b: string)
    ensures Lower(a + b) == Lower(a) + Lower(b)
    decreases |a|
  {
    if a != "" {
      assert (a + b)[1..] == a[1..] + b;
      LowerAppend(a[1..], b);
    } else {
      assert a + b == b;
    }
  }

  /** Two upper-case digits per byte, nothing between. */
  function UpperHex(bytes: seq<byte>): string
    decreases |bytes|
  {
    if bytes == [] then "" else [UpperDigit(bytes[0] as int / 16), UpperDigit(bytes[0] as int % 16)] + UpperHex(bytes[1..])
  }

  lemma {:induction false} UndashedIsUpperHex(bytes: seq<byte>)
    ensures RemoveDashes(Dashed(bytes)) == UpperHex(bytes)
    decreases |bytes|
  {
    if |bytes| >= 1 {
      var hi, lo := bytes[0] as int / 16, bytes[0] as int % 16;
      var pair := [UpperDigit(hi), UpperDigit(lo)];
      assert pair[1..] == [UpperDigit(lo)] && pair[1..][1..] == "";
      assert RemoveDashes(pair[1..]) == [UpperDigit(lo)];
      assert RemoveDashes(pair) == pair;
      if |bytes| == 1 {
        assert bytes[1..] == [];
        assert pair + "" == pair;
      } else {
        UndashedIsUpperHex(bytes[1..]);
        assert Dashed(bytes) == pair + ("-" + Dashed(bytes[1..]));
        RemoveDashesAppend(pair, "-" + Dashed(bytes[1..]));
        RemoveDashesAppend("-", Dashed(bytes[1..]));
        assert RemoveDashes("-") == "";
      }
    }
  }

  lemma {:induction false} LowerUpperHex(bytes: seq<byte>)
    ensures Lower(UpperHex(bytes)) == LowerHex(bytes)
    decreases |bytes|
  {
    if bytes != [] {
      var hi, lo := bytes[0] as int / 16, bytes[0] as int % 16;
      var pair := [UpperDigit(hi), UpperDigit(lo)];
      assert pair[1..] == [UpperDigit(lo)] && pair[1..][1..] == "";
      assert LowerChar(UpperDigit(hi)) == LowerDigit(hi) && LowerChar(UpperDigit(lo)) == LowerDigit(lo);
      assert Lower(pair[1..][1..]) == "";
      assert Lower(pair[1..]) == [LowerDigit(lo)];
      assert Lower(pair) == [LowerDigit(hi), LowerDigit(lo)];
      LowerAppend(pair, UpperHex(bytes[1..]));
      LowerUpperHex(bytes[1..]);
    }
  }

  /**
   * ReadHexFromBytea writes n bytes as 2n lower-case hex digits, two per
   * byte in byte order, with no separators.
   */
  lemma ReadHexIsLowerHex(bytes: seq<byte>)
    ensures ReadHexFromBytea(Some(bytes)) == Some(LowerHex(bytes))
    ensures |ReadHexFromBytea(Some(bytes)).value| == 2 * |bytes|
  {
    UndashedIsUpperHex(bytes);
    LowerUpperHex(bytes);
  }

  lemma LowerDigitValue(d: int)
    requires 0 <= d < 16
    ensures DigitValue(LowerDigit(d)) == Some(d)
  {
  }

  /** The hex text of a column reads back as the column's bytes. */
  lemma {:induction false} LowerHexRoundTrip(bytes: seq<byte>)
    ensures ParseHex(LowerHex(bytes)) == Some(bytes)
    decreases |bytes|
  {
    if bytes != [] {
      var b := bytes[0];
      LowerDigitValue(b as int / 16);
      LowerDigitValue(b as int % 16);
      LowerHexRoundTrip(bytes[1..]);
      var s := LowerHex(bytes);
      assert s[2..] == LowerHex(bytes[1..]);
      assert [(((b as int / 16) * 16 + b as int % 16)) as byte] + bytes[1..] == bytes;
    }
  }
}
