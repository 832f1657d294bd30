/**
  The printed form of a refresh token (meritmolt/auth/tokens.py): the id in hexadecimal, a dot, and the
  secret in base64url without padding, by section 5 of RFC 4648 with the padding of section 3.2.
 */
module TokenCodec {
  import opened Options

  type Byte = b: int | 0 <= b < 256
  type Sextet = v: int | 0 <= v < 64
  type Nibble = d: int | 0 <= d < 16

  /** A 128-bit identifier. */
  type Uuid = id: seq<Byte> | |id| == 16 witness seq(16, _ => 0)

  // ---------- The base64url alphabet ----------

  function Symbol(v: Sextet): char {
    if v < 26 then ('A' as int + v) as char
    else if v < 52 then ('a' as int + (v - 26)) as char
    else if v < 62 then ('0' as int + (v - 52)) as char
    else if v == 62 then '-' else '_'
  }

  /** What the decoder reads a character as; it takes the symbols of both base64 alphabets. */
  function Value(c: char): Option<Sextet> {
    if 'A' <= c <= 'Z' then Some(c as int - 'A' as int)
    else if 'a' <= c <= 'z' then Some(c as int - 'a' as int + 26)
    else if '0' <= c <= '9' then Some(c as int - '0' as int + 52)
    else if c == '-' || c == '+' then Some(62)
    else if c == '_' || c == '/' then Some(63)
    else None
  }

  // ---------- Encoding ----------

  /** Four symbols for three bytes. */
  function Quad(a: Byte, b: Byte, c: Byte): string {
    [Symbol(a / 4), Symbol(a % 4 * 16 + b / 16), Symbol(b % 16 * 4 + c / 64), Symbol(c % 64)]
  }

  /** Base64 with padding. */
  function Padded(data: seq<Byte>): string {
    if data == [] then ""
    else if |data| == 1 then [Symbol(data[0] / 4), Symbol(data[0] % 4 * 16), '=', '=']
    else if |data| == 2 then [Symbol(data[0] / 4), Symbol(data[0] % 4 * 16 + data[1] / 16), Symbol(data[1] % 16 * 4), '=']
    else Quad(data[0], data[1], data[2]) + Padded(data[3..])
  }

  function StripPads(s: string): string {
    if s != "" && s[|s| - 1] == '=' then StripPads(s[..|s| - 1]) else s
  }

  function Encode(data: seq<Byte>): string {
    StripPads(Padded(data))
  }

  // ---------- Decoding ----------

  function Pads(n: nat): string {
    seq(n, _ => '=')
  }

  function Repad(s: string): string {
    var pad := 4 - |s| % 4;
    if pad != 4 then s + Pads(pad) else s
  }

  function Prepend(b: Byte, rest: Option<seq<Byte>>): Option<seq<Byte>> {
    if rest.Some? then Some([b] + rest.value) else None
  }

  /**
    Base64 decoding without validation, after `pos` symbols of a group of four that left `left` as spare
    bits, and `pads` padding characters: anything outside the alphabet is skipped, a group completed
    by padding ends the text.
   */
  function Read(s: string, pos: nat, left: nat, pads: nat): Option<seq<Byte>>
    requires pos < 4 && left < [1, 64, 16, 4][pos]
  {
    if s == "" then
      if pos == 0 then Some([]) else None
    else if s[0] == '=' then
      if pos >= 2 && pos + pads + 1 >= 4 then Some([])
      else Read(s[1..], pos, left, if pos >= 2 then pads + 1 else pads)
    else match Value(s[0])
      case None => Read(s[1..], pos, left, pads)
      case Some(v) =>
        if pos == 0 then Read(s[1..], 1, v, 0)
        else if pos == 1 then Prepend(left * 4 + v / 16, Read(s[1..], 2, v % 16, 0))
        else if pos == 2 then Prepend(left * 16 + v / 4, Read(s[1..], 3, v % 4, 0))
        else Prepend(left * 64 + v, Read(s[1..], 0, 0, 0))
  }

  predicate Ascii(s: string) {
    forall i :: 0 <= i < |s| ==> s[i] < 128 as char
  }

  function Decode(s: string): Option<seq<Byte>> {
    if Ascii(s) then Read(Repad(s), 0, 0, 0) else None
  }

  // ---------- Hexadecimal ids ----------

  function HexDigit(d: Nibble): char {
    if d < 10 then ('0' as int + d) as char else ('a' as int + (d - 10)) as char
  }

  function HexValue(c: char): Option<Nibble> {
    if '0' <= c <= '9' then Some(c as int - '0' as int)
    else if 'a' <= c <= 'f' then Some(c as int - 'a' as int + 10)
    else if 'A' <= c <= 'F' then Some(c as int - 'A' as int + 10)
    else None
  }

  function Hex(data: seq<Byte>): string {
    if data == [] then "" else [HexDigit(data[0] / 16), HexDigit(data[0] % 16)] + Hex(data[1..])
  }

  function FromHex(s: string): Option<seq<Byte>> {
    if s == "" then Some([])
    else if |s| == 1 || HexValue(s[0]).None? || HexValue(s[1]).None? then None
    else Prepend(HexValue(s[0]).value * 16 + HexValue(s[1]).value, FromHex(s[2..]))
  }

  function ParseUuid(s: string): Option<Uuid> {
    match FromHex(s)
    case Some(id) => if |id| == 16 then Some(id) else None
    case None => None
  }

  // ---------- Raw tokens ----------

  const MIN_SECRET: nat := 32

  function Print(id: Uuid, secret: seq<Byte>): string {
    Hex(id) + "." + Encode(secret)
  }

  /** The index of the first dot. */
  function FirstDot(s: string): (k: nat)
    requires '.' in s
    ensures k < |s| && s[k] == '.' && '.' !in s[..k]
  {
    if s[0] == '.' then 0 else 1 + FirstDot(s[1..])
  }

  function Parse(raw: string): Option<(Uuid, seq<Byte>)> {
    if '.' !in raw then None else
      var dot := FirstDot(raw);
      match (ParseUuid(raw[..dot]), Decode(raw[dot + 1..]))
      case (Some(id), Some(secret)) => if |secret| < MIN_SECRET then None else Some((id, secret))
      case _ => None
  }
}
