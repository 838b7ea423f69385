// The helpers of the utils package: the e-mail check, the six-digit
// password-reset code and the identifier shape `<prefix>_<time>_<hex>`.
// The clock and the random bytes are parameters.
module Utils {
  import opened Common
  import opened Text

  /** A byte as `crypto/rand` fills it. */
  type byte = b: int | 0 <= b < 256

  /** strings.Contains(email, "@") && strings.Contains(email, "."). */
  predicate ValidateEmail(email: string)
  {
    '@' in email && '.' in email
  }

  /** The check only looks for the two characters: it accepts any order and no local part or domain. */
  lemma ValidateEmailPermissive()
    ensures ValidateEmail(".@") && ValidateEmail("@.")
    ensures !ValidateEmail("user@localhost") && !ValidateEmail("user.example.com")
  {
    assert ".@"[1] == '@' && "@."[0] == '@';
    assert "user@localhost"[4] == '@';
    assert '@' !in "user.example.com" by {
      forall i | 0 <= i < |"user.example.com"| ensures "user.example.com"[i] != '@' { }
    }
    assert '.' !in "user@localhost" by {
      forall i | 0 <= i < |"user@localhost"| ensures "user@localhost"[i] != '.' { }
    }
  }

  // ---------------------------------------------------------------------
  // GenerateResetCode
  // ---------------------------------------------------------------------

  /** The bytes read as one big-endian number. */
  function BigEndian(bs: seq<byte>): nat
  {
    if bs == [] then 0 else BigEndian(bs[..|bs| - 1]) * 256 + bs[|bs| - 1]
  }

  /** The code a sequence of random bytes gives: `fmt.Sprintf("%06d", code % 1000000)`. */
  function ResetCode(bs: seq<byte>): string
  {
    FormatInt(BigEndian(bs) % 1000000, 6)
  }

  lemma Pow10Six()
    ensures Pow10(6) == 1000000
  {
    assert Pow10(1) == 10;
    assert Pow10(3) == 1000;
  }

  /** Every code is six decimal digits and reads back as the number it prints. */
  lemma ResetCodeShape(bs: seq<byte>)
    ensures |ResetCode(bs)| == 6 && AllDigits(ResetCode(bs))
    ensures Atoi(ResetCode(bs)) == Some(BigEndian(bs) % 1000000)
  {
    Pow10Six();
    FormatIntWidth(BigEndian(bs) % 1000000, 6);
    FormatIntRoundTrip(BigEndian(bs) % 1000000, 6);
  }

  /** Illustrates the modulo in GenerateResetCode: two different byte triples give the same code, as 0 and 1000000 both print as "000000". */
  lemma ResetCodeCollision()
    ensures BigEndian([0, 0, 0]) == 0 && BigEndian([15, 66, 64]) == 1000000
    ensures ResetCode([0, 0, 0]) == ResetCode([15, 66, 64])
  {
    assert [15, 66, 64][..2] == [15, 66] && [15, 66][..1] == [15];
    assert [0, 0, 0][..2] == [0, 0] && [0, 0][..1] == [0];
  }

  /** Three bytes read big-endian: b0·65536 + b1·256 + b2. */
  lemma BigEndianThree(bs: seq<byte>)
    requires |bs| == 3
    ensures BigEndian(bs) == (bs[0] as int) * 65536 + (bs[1] as int) * 256 + bs[2] as int
  {
    assert bs[..2][..1] == bs[..1] && bs[..1][..0] == [];
    assert BigEndian(bs[..1]) == bs[0] as int;
    assert BigEndian(bs[..2]) == (bs[0] as int) * 256 + bs[1] as int;
  }

  /** The accumulation loop `code = (code * 256) + int(b)`. */
  method AccumulateBytes(bs: seq<byte>) returns (n: nat)
    ensures n == BigEndian(bs)
  {
    n := 0;
    for i := 0 to |bs|
      invariant n == BigEndian(bs[..i])
    {
      assert bs[..i + 1][..i] == bs[..i];
      n := n * 256 + bs[i];
    }
    assert bs[..|bs|] == bs;
  }

  /**
   * GenerateResetCode: `code = code*256 + b` over three random bytes, then
   * the remainder modulo 10^6 with six-digit zero padding.
   */
  method GenerateResetCode(randomBytes: seq<byte>) returns (code: string)
    requires |randomBytes| == 3
    ensures code == ResetCode(randomBytes)
    ensures |code| == 6 && AllDigits(code)
    ensures Atoi(code) == Some(((randomBytes[0] as int) * 65536 + (randomBytes[1] as int) * 256 + randomBytes[2] as int) % 1000000)
  {
    var n := AccumulateBytes(randomBytes);
    code := FormatInt(n % 1000000, 6);
    ResetCodeShape(randomBytes);
    BigEndianThree(randomBytes);
  }

  // ---------------------------------------------------------------------
  // GenerateID
  // ---------------------------------------------------------------------

  /** A lower-case hexadecimal digit. */
  predicate IsHexDigit(c: char)
  {
    '0' <= c <= '9' || 'a' <= c <= 'f'
  }

  function HexDigit(v: nat): (c: char)
    requires v < 16
    ensures IsHexDigit(c)
  {
    if v < 10 then ((v + '0' as int) as char) else ((v - 10 + 'a' as int) as char)
  }

  function HexValue(c: char): (v: nat)
    requires IsHexDigit(c)
    ensures v < 16 && HexDigit(v) == c
  {
    if '0' <= c <= '9' then (c as int) - ('0' as int) else (c as int) - ('a' as int) + 10
  }

  /** hex.EncodeToString: two lower-case digits per byte, high nibble first. */
  function HexEncode(bs: seq<byte>): (h: string)
    ensures |h| == 2 * |bs|
    ensures forall i :: 0 <= i < |h| ==> IsHexDigit(h[i])
  {
    if bs == [] then [] else [HexDigit(bs[0] / 16), HexDigit(bs[0] % 16)] + HexEncode(bs[1..])
  }

  /** hex.DecodeString on well-formed input. */
  function HexDecode(h: string): seq<byte>
    requires |h| % 2 == 0
    requires forall i :: 0 <= i < |h| ==> IsHexDigit(h[i])
  {
    if h == [] then [] else [HexValue(h[0]) * 16 + HexValue(h[1])] + HexDecode(h[2..])
  }

  /** One byte's two digits give the byte back. */
  lemma HexByteRoundTrip(b: byte)
    ensures HexValue(HexDigit(b / 16)) * 16 + HexValue(HexDigit(b % 16)) == b
  {
    var hi, lo := b / 16, b % 16;
    assert HexValue(HexDigit(hi)) == hi;
    assert HexValue(HexDigit(lo)) == lo;
  }

  /** Encoding is undone by decoding: the hex part of an identifier determines its bytes. */
  lemma {:induction false} HexRoundTrip(bs: seq<byte>)
    ensures HexDecode(HexEncode(bs)) == bs
  {
    if bs != [] {
      var h := HexEncode(bs);
      var hi, lo := HexDigit(bs[0] / 16), HexDigit(bs[0] % 16);
      var rest := HexEncode(bs[1..]);
      assert h == [hi, lo] + rest;
      assert h[0] == hi && h[1] == lo && h[2..] == rest;
      HexByteRoundTrip(bs[0]);
      HexRoundTrip(bs[1..]);
    }
  }

  /** `fmt.Sprintf("%s_%d_%s", prefix, timestamp, randomHex)` with the clock and the random bytes given. */
  function GenerateID(prefix: string, timestamp: int, randomBytes: seq<byte>): string
    requires |randomBytes| == 4
  {
    prefix + "_" + FormatInt(timestamp, 0) + "_" + HexEncode(randomBytes)
  }

  lemma FormatIntNoUnderscore(i: int)
    ensures '_' !in FormatInt(i, 0)
  {
    if i < 0 {
      PaddedDigits(-i, 0);
      assert FormatInt(i, 0) == "-" + PadLeft(NatToString(-i), 0);
    } else {
      PaddedDigits(i, 0);
    }
  }

  /**
   * An identifier splits on '_' into exactly its three fields when the
   * prefix has no '_': the prefix, a decimal timestamp that reads back,
   * and eight hex digits that decode to the random bytes.
   */
  lemma GenerateIDFields(prefix: string, timestamp: int, randomBytes: seq<byte>)
    requires |randomBytes| == 4 && '_' !in prefix
    ensures Split(GenerateID(prefix, timestamp, randomBytes), '_') == [prefix, FormatInt(timestamp, 0), HexEncode(randomBytes)]
    ensures |HexEncode(randomBytes)| == 8
    ensures Atoi(FormatInt(timestamp, 0)) == Some(timestamp)
    ensures HexDecode(HexEncode(randomBytes)) == randomBytes
  {
    var parts := [prefix, FormatInt(timestamp, 0), HexEncode(randomBytes)];
    FormatIntNoUnderscore(timestamp);
    assert '_' !in HexEncode(randomBytes) by {
      forall i | 0 <= i < |HexEncode(randomBytes)| ensures HexEncode(randomBytes)[i] != '_' {
        assert IsHexDigit(HexEncode(randomBytes)[i]);
      }
    }
    assert Join(parts, '_') == GenerateID(prefix, timestamp, randomBytes) by {
      assert parts[1..] == [FormatInt(timestamp, 0), HexEncode(randomBytes)];
      assert parts[1..][1..] == [HexEncode(randomBytes)];
      assert Join(parts[1..], '_') == FormatInt(timestamp, 0) + "_" + HexEncode(randomBytes);
    }
    JoinSplit(parts, '_');
    FormatIntRoundTrip(timestamp, 0);
    HexRoundTrip(randomBytes);
  }

  /** With one prefix, an identifier determines the timestamp and the random bytes it was made from. */
  lemma GenerateIDInjective(prefix: string, t1: int, r1: seq<byte>, t2: int, r2: seq<byte>)
    requires |r1| == 4 && |r2| == 4 && '_' !in prefix
    requires GenerateID(prefix, t1, r1) == GenerateID(prefix, t2, r2)
    ensures t1 == t2 && r1 == r2
  {
    GenerateIDFields(prefix, t1, r1);
    GenerateIDFields(prefix, t2, r2);
  }

  /** The ten identifier kinds, one per prefix wrapper. */
  datatype IdKind = User | Clinic | Appointment | MedicalRecord | Prescription
                  | TestResult | Payment | Salary | Report | PasswordReset

  function Prefix(k: IdKind): (p: string)
    ensures |p| == 3 && '_' !in p
  {
    match k
    case User => "USR"
    case Clinic => "CLN"
    case Appointment => "APT"
    case MedicalRecord => "MRC"
    case Prescription => "PRE"
    case TestResult => "TST"
    case Payment => "PAY"
    case Salary => "SAL"
    case Report => "RPT"
    case PasswordReset => "PWR"
  }

  /** GenerateUserID, GenerateClinicID, ..., GeneratePasswordResetID. */
  function GenerateKindID(k: IdKind, timestamp: int, randomBytes: seq<byte>): string
    requires |randomBytes| == 4
  {
    GenerateID(Prefix(k), timestamp, randomBytes)
  }

  /** The prefixes are pairwise distinct, so identifiers of two kinds never coincide, whatever the clock and the bytes. */
  lemma KindsNeverCollide(k1: IdKind, k2: IdKind, t1: int, r1: seq<byte>, t2: int, r2: seq<byte>)
    requires |r1| == 4 && |r2| == 4 && k1 != k2
    ensures GenerateKindID(k1, t1, r1) != GenerateKindID(k2, t2, r2)
  {
    GenerateIDFields(Prefix(k1), t1, r1);
    GenerateIDFields(Prefix(k2), t2, r2);
    assert Prefix(k1) != Prefix(k2);
  }
}
