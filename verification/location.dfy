/** Location capture and the privacy hash submitted to the ledger
    (lib/location/locationService.ts). The platform location service and
    SHA-256 are outside the model: their answers arrive as parameters. */
module Location {
  import opened Wrappers
  import opened Bytes
  import opened Text

  /** A floating-point coordinate, carried as the three renderings the
      application prints: `${x}`, `x.toFixed(4)` and `x.toFixed(6)`. */
  datatype Coord = Coord(shown: string, fixed4: string, fixed6: string)

  /** `{latitude, longitude, accuracy}`: the location attached to a
      transition and kept in the last-known device state. */
  datatype Fix = Fix(latitude: Coord, longitude: Coord, accuracy: Option<Coord>)

  /** `{latitude, longitude}`: the part of a location an alert message shows. */
  datatype Point = Point(latitude: Coord, longitude: Coord)

  function PointOfFix(f: Fix): Point {
    Point(f.latitude, f.longitude)
  }

  /** `LocationSnapshot`: a fix with the time (ms) it was taken. */
  datatype Snapshot = Snapshot(latitude: Coord, longitude: Coord, accuracy: Option<Coord>, timestamp: int)

  /** The `locationData` object built from a snapshot. */
  function FixOf(s: Snapshot): Fix {
    Fix(s.latitude, s.longitude, s.accuracy)
  }

  function PointOfSnapshot(s: Snapshot): Point {
    Point(s.latitude, s.longitude)
  }

  /** What the permission request reports: granted, anything else, or a throw. */
  datatype Permission = Granted | Denied | PermissionFailed

  /** What a position request reports: a position, nothing, or a throw. */
  datatype PositionReport = Position(snapshot: Snapshot) | NoPosition | PositionFailed

  /** `requestLocationPermissions`: true only for a granted status; a throw reads as false. */
  function HasPermission(p: Permission): (r: bool)
    ensures r <==> p.Granted?
  {
    match p
    case Granted => true
    case Denied => false
    case PermissionFailed => false
  }

  /** `getCurrentLocation` and `getLastKnownLocation`: the reported position
      when permission is granted and a position came back, `null` otherwise;
      neither ever throws. */
  function GetLocation(p: Permission, report: PositionReport): (r: Option<Snapshot>)
    ensures r.Some? <==> p.Granted? && report.Position?
    ensures r.Some? ==> r.value == report.snapshot
  {
    if !HasPermission(p) then None
    else match report
      case Position(s) => Some(s)
      case NoPosition => None
      case PositionFailed => None
  }

  // ---------------------------------------------------------------------------
  // hashLocation

  /** The text that is hashed: `"${latitude},${longitude},${timestamp}"`. */
  function HashInput(s: Snapshot): string {
    s.latitude.shown + "," + s.longitude.shown + "," + IntToString(s.timestamp)
  }

  predicate IsHexDigit(c: char) {
    IsDigit(c) || 'a' <= c <= 'f' || 'A' <= c <= 'F'
  }

  function HexValue(c: char): (v: nat)
    requires IsHexDigit(c)
    ensures v < 16
  {
    if IsDigit(c) then DigitValue(c)
    else if 'a' <= c <= 'f' then (c as int - 'a' as int + 10) as nat
    else (c as int - 'A' as int + 10) as nat
  }

  /** `parseInt(a + b, 16)` for a two-character text: leading white space and
      one sign are skipped, a `0x`/`0X` prefix is dropped, then the longest run
      of hexadecimal digits is read; NaN (`None`) when there is none. */
  function ParseHexPair(a: char, b: char): (r: Option<int>)
    ensures IsHexDigit(a) && IsHexDigit(b) ==> r == Some(16 * HexValue(a) + HexValue(b))
    ensures IsHexDigit(a) && !IsHexDigit(b) && !(a == '0' && (b == 'x' || b == 'X')) ==> r == Some(HexValue(a) as int)
    ensures a == '-' && IsHexDigit(b) ==> r == Some(-(HexValue(b) as int))
    ensures a == '0' && (b == 'x' || b == 'X') ==> r.None?
    ensures !IsHexDigit(a) && !IsHexDigit(b) ==> r.None?
    ensures r.Some? ==> -16 < r.value < 256
  {
    if IsSpace(a) || a == '+' then (if IsHexDigit(b) then Some(HexValue(b) as int) else None)
    else if a == '-' then (if IsHexDigit(b) then Some(-(HexValue(b) as int)) else None)
    else if a == '0' && (b == 'x' || b == 'X') then None
    else if IsHexDigit(a) then Some(if IsHexDigit(b) then 16 * HexValue(a) + HexValue(b) else HexValue(a))
    else None
  }

  /** A store into a `Uint8Array`: NaN becomes 0, other values wrap modulo 256. */
  function ToUint8(v: Option<int>): Byte {
    match v
    case None => 0
    case Some(x) => x % 256
  }

  function PairByte(a: char, b: char): Byte {
    ToUint8(ParseHexPair(a, b))
  }

  /** The decoding loop: a `Uint8Array` of `digest.length / 2` bytes whose byte
      `k` is the value of characters `2k` and `2k+1`. An odd last character
      is read on its own and stored at index `|d| / 2`, one past the end of
      the array, where a typed array ignores the write. */
  function DecodeHex(d: string): (r: seq<Byte>)
    ensures |r| == |d| / 2
    ensures forall k :: 0 <= k < |r| ==> r[k] == PairByte(d[2 * k], d[2 * k + 1])
    decreases |d|
  {
    if |d| < 2 then [] else [PairByte(d[0], d[1])] + DecodeHex(d[2..])
  }

  const HEX_DIGITS := "0123456789abcdef"

  /** Lower-case hexadecimal, two characters per byte: the form of the
      digest text SHA-256 returns. */
  function EncodeHex(b: seq<Byte>): (d: string)
    ensures |d| == 2 * |b|
    ensures forall k :: 0 <= k < |d| ==> IsHexDigit(d[k])
  {
    if b == [] then "" else [HEX_DIGITS[b[0] / 16], HEX_DIGITS[b[0] % 16]] + EncodeHex(b[1..])
  }

  lemma HexDigitValue(v: nat)
    requires v < 16
    ensures IsHexDigit(HEX_DIGITS[v]) && HexValue(HEX_DIGITS[v]) == v
    ensures HEX_DIGITS[v] != 'x' && HEX_DIGITS[v] != 'X'
  {
  }

  lemma PairOfEncodedByte(x: Byte)
    ensures PairByte(HEX_DIGITS[x / 16], HEX_DIGITS[x % 16]) == x
  {
    HexDigitValue(x / 16);
    HexDigitValue(x % 16);
  }

  /** A hexadecimal digest decodes to exactly the bytes it spells; a 64-digit
      SHA-256 digest gives 32 bytes. */
  lemma {:induction false} DecodeEncodeHex(b: seq<Byte>)
    ensures DecodeHex(EncodeHex(b)) == b
  {
    if b != [] {
      var d := EncodeHex(b);
      assert d[2..] == EncodeHex(b[1..]);
      DecodeEncodeHex(b[1..]);
      PairOfEncodedByte(b[0]);
    }
  }

  /** expo-crypto's `digestStringAsync` as a table from input text to the
      hexadecimal digest it resolves to; an input outside the table is one
      whose hashing rejects. */
  type Digests = map<string, string>

  /** `hashLocation`: the decoded SHA-256 digest of the hash input, or 32 zero
      bytes when hashing fails. */
  function HashLocation(s: Snapshot, sha256: Digests): (r: seq<Byte>)
    ensures HashInput(s) !in sha256 ==> r == ZERO_32
    ensures HashInput(s) in sha256 ==> |r| == |sha256[HashInput(s)]| / 2
  {
    var input := HashInput(s);
    if input in sha256 then DecodeHex(sha256[input]) else ZERO_32
  }

  /** A digest that is the hexadecimal text of 32 bytes yields those bytes. */
  lemma HashLocationOfDigest(s: Snapshot, sha256: Digests, digest: seq<Byte>)
    requires |digest| == 32 && HashInput(s) in sha256 && sha256[HashInput(s)] == EncodeHex(digest)
    ensures HashLocation(s, sha256) == digest && |HashLocation(s, sha256)| == 32
  {
    DecodeEncodeHex(digest);
  }

  /** The context hash a transition submits: the location hash when a
      location was obtained, 32 zero bytes otherwise. */
  function ContextHash(location: Option<Snapshot>, sha256: Digests): (r: seq<Byte>)
    ensures location.None? ==> r == ZERO_32
    ensures location.Some? ==> r == HashLocation(location.value, sha256)
  {
    if location.None? then ZERO_32 else HashLocation(location.value, sha256)
  }
}
