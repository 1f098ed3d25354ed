/** MongoDB ObjectIDs as the post core uses them: parsed from a caller's hex
    string (`bson.ObjectIDFromHex`), printed back as lower-case hex
    (`ObjectID.Hex`), and generated by the driver for a document inserted
    without an `_id`. */
module ObjectIds {
  import opened Results

  newtype Nibble = x: int | 0 <= x < 16

  const IdLength: nat := 24

  /** The 12 bytes of an ObjectID, held as their 24 hexadecimal digits, most
      significant first. */
  type ObjectId = s: seq<Nibble> | |s| == 24 witness [0, 0, 0, 0, 0, 0, 0, 0, 0, 0, 0, 0, 0, 0, 0, 0, 0, 0, 0, 0, 0, 0, 0, 0]

  /** `bson.NilObjectID`, the zero value of the type. */
  const NilId: ObjectId := [0, 0, 0, 0, 0, 0, 0, 0, 0, 0, 0, 0, 0, 0, 0, 0, 0, 0, 0, 0, 0, 0, 0, 0]

  /** `fromHexChar` of package encoding/hex: both letter cases are accepted. */
  predicate IsHexDigit(c: char) {
    '0' <= c <= '9' || 'a' <= c <= 'f' || 'A' <= c <= 'F'
  }

  predicate IsLowerHexDigit(c: char) {
    '0' <= c <= '9' || 'a' <= c <= 'f'
  }

  function DigitValue(c: char): Nibble
    requires IsHexDigit(c)
  {
    if '0' <= c <= '9' then (c as int - '0' as int) as Nibble
    else if 'a' <= c <= 'f' then (c as int - 'a' as int + 10) as Nibble
    else (c as int - 'A' as int + 10) as Nibble
  }

  /** The digit `ObjectID.Hex` prints for a nibble. */
  function HexChar(n: Nibble): (c: char)
    ensures IsLowerHexDigit(c) && IsHexDigit(c)
    ensures DigitValue(c) == n
  {
    if n < 10 then ('0' as int + n as int) as char else ('a' as int + n as int - 10) as char
  }

  /** Upper-case hex letters folded to lower case; other characters kept. */
  function LowerHexChar(c: char): char {
    if 'A' <= c <= 'F' then (c as int - 'A' as int + 'a' as int) as char else c
  }

  /** The index of the first character that is not a hex digit, if any. */
  function FirstNonHex(s: string): (r: Option<nat>)
    ensures r.None? <==> forall i | 0 <= i < |s| :: IsHexDigit(s[i])
    ensures r.Some? ==> r.value < |s| && !IsHexDigit(s[r.value])
    ensures r.Some? ==> forall i | 0 <= i < r.value :: IsHexDigit(s[i])
  {
    if s == [] then None
    else if !IsHexDigit(s[0]) then Some(0)
    else match FirstNonHex(s[1..])
      case None => None
      case Some(i) => Some(i + 1)
  }

  /** `bson.ObjectIDFromHex`: a string of exactly 24 hex digits (either case)
      names an ObjectID; a wrong length gives `ErrInvalidHex`, a bad character
      the hex decoder's error for the first such character. */
  function FromHex(s: string): (r: Result<ObjectId>)
    ensures r.Ok? <==> |s| == IdLength && forall i | 0 <= i < |s| :: IsHexDigit(s[i])
    ensures |s| != IdLength ==> r == Err(InvalidHex)
    ensures r.Err? ==> r.error.InvalidHex? || (r.error.InvalidHexByte? && r.error.c in s)
    ensures r.Ok? ==> forall i | 0 <= i < IdLength :: r.value[i] == DigitValue(s[i])
  {
    if |s| != IdLength then Err(InvalidHex)
    else match FirstNonHex(s)
      case Some(i) => Err(InvalidHexByte(s[i]))
      case None => Ok(seq(24, i requires 0 <= i < 24 => DigitValue(s[i])))
  }

  /** `ObjectID.Hex`: 24 lower-case hex digits. */
  function Hex(id: ObjectId): (s: string)
    ensures |s| == IdLength
    ensures forall i | 0 <= i < |s| :: IsLowerHexDigit(s[i])
  {
    seq(24, i requires 0 <= i < 24 => HexChar(id[i]))
  }

  /** Printing an ObjectID and parsing the text gives the same ObjectID back. */
  lemma FromHexOfHex(id: ObjectId)
    ensures FromHex(Hex(id)) == Ok(id)
  {
    var s := Hex(id);
    assert FromHex(s).value == id;
  }

  /** Parsing a hex id and printing it gives the text back with its letters in
      lower case; a lower-case id comes back unchanged. */
  lemma HexOfFromHex(s: string)
    requires FromHex(s).Ok?
    ensures Hex(FromHex(s).value) == seq(|s|, i requires 0 <= i < |s| => LowerHexChar(s[i]))
    ensures (forall i | 0 <= i < |s| :: IsLowerHexDigit(s[i])) ==> Hex(FromHex(s).value) == s
  {
    var id := FromHex(s).value;
    forall i | 0 <= i < IdLength
      ensures Hex(id)[i] == LowerHexChar(s[i])
    {
      assert id[i] == DigitValue(s[i]);
    }
  }

  /** Printing is one-to-one: distinct ObjectIDs have distinct hex forms. */
  lemma HexInjective(a: ObjectId, b: ObjectId)
    ensures Hex(a) == Hex(b) ==> a == b
  {
    FromHexOfHex(a);
    FromHexOfHex(b);
  }

  function Pow16(k: nat): (p: nat)
    ensures p >= 1
  {
    if k == 0 then 1 else 16 * Pow16(k - 1)
  }

  /** The ObjectID the driver assigns to the n-th document inserted without an
      `_id`: n written in 24 hex digits (modulo 16^24). */
  function Generated(n: nat): ObjectId {
    seq(24, i requires 0 <= i < 24 => ((n / Pow16(23 - i)) % 16) as Nibble)
  }
}
