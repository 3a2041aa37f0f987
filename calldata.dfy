/**
 * CalldataRewriter: the part of `get_caldata_from_rpc` that turns the call
 * payload of a detected transaction into the payload the bot resubmits. The
 * node lookup is an oracle value (`TxLookup`) and the checksummed operator
 * address is an oracle value too (`to_checksum_address` is Keccak-based
 * library code).
 */
module Calldata {
  import opened Wrappers

  newtype byte = x: int | 0 <= x < 256

  /** Length of `0x` plus the 4-byte method selector, in hex characters. */
  const SELECTOR_END: nat := 10
  /** End of the first 32-byte argument slot, in hex characters. */
  const SLOT_END: nat := 74
  /** Width of one argument slot, in hex characters. */
  const SLOT_WIDTH: nat := 64

  predicate IsLowerHexChar(c: char) {
    ('0' <= c <= '9') || ('a' <= c <= 'f')
  }

  predicate IsHexChar(c: char) {
    IsLowerHexChar(c) || ('A' <= c <= 'F')
  }

  predicate IsLowerHex(s: string) {
    forall i :: 0 <= i < |s| ==> IsLowerHexChar(s[i])
  }

  predicate StartsWith0x(s: string) {
    |s| >= 2 && s[0] == '0' && s[1] == 'x'
  }

  /** What `to_checksum_address` returns: `0x` and 40 hex digits of mixed case. */
  predicate IsChecksumAddress(s: string) {
    |s| == 42 && StartsWith0x(s) && forall i :: 2 <= i < |s| ==> IsHexChar(s[i])
  }

  type ChecksumAddress = s: string | IsChecksumAddress(s)
    witness "0x0000000000000000000000000000000000000000"

  /** The `input` field of a transaction as the node hands it over. */
  datatype RawInput = Bytes(bytes: seq<byte>) | Text(text: string) | Unsupported

  /** Outcome of `get_transaction`: not found (or empty), or a record whose `input` key may be absent. */
  datatype TxLookup = NotFound | Found(input: Option<RawInput>)

  /** The causes behind "Error memproses calldata", in the order the code checks them. */
  datatype CalldataError =
    | MissingTransaction   // no transaction, or no `input` key
    | UnsupportedInput     // `input` neither bytes nor str
    | TooShort             // fewer than 10 characters
    | ChecksumFailed       // `to_checksum_address` raised
    | RewriteRejected      // the final `0x` / length check failed

  function HexDigit(n: int): (c: char)
    requires 0 <= n < 16
    ensures IsLowerHexChar(c)
  {
    if n < 10 then ('0' as int + n) as char else ('a' as int + n - 10) as char
  }

  function HexValue(c: char): (n: nat)
    requires IsLowerHexChar(c)
    ensures n < 16 && HexDigit(n) == c
  {
    if c <= '9' then c as int - '0' as int else c as int - 'a' as int + 10
  }

  /** Python's `bytes.hex()`: two lower-case hex digits per byte, high nibble first. */
  function HexOfBytes(b: seq<byte>): (s: string)
    ensures |s| == 2 * |b|
    ensures IsLowerHex(s)
  {
    if b == [] then ""
    else [HexDigit(b[0] as int / 16), HexDigit(b[0] as int % 16)] + HexOfBytes(b[1..])
  }

  /** The inverse reading of an even-length lower-case hex string. */
  function BytesOfHex(s: string): (b: seq<byte>)
    requires |s| % 2 == 0 && IsLowerHex(s)
    ensures |b| == |s| / 2
  {
    if s == [] then []
    else [(HexValue(s[0]) * 16 + HexValue(s[1])) as byte] + BytesOfHex(s[2..])
  }

  lemma {:induction false} HexRoundTrip(b: seq<byte>)
    ensures BytesOfHex(HexOfBytes(b)) == b
  {
    if b != [] {
      var s := HexOfBytes(b);
      assert s[2..] == HexOfBytes(b[1..]);
      HexRoundTrip(b[1..]);
      var x := b[0] as int;
      assert HexValue(s[0]) == x / 16 && HexValue(s[1]) == x % 16;
    }
  }

  /** The value of a hex digit of either case. */
  function DigitValue(c: char): (n: nat)
    requires IsHexChar(c)
    ensures n < 16
  {
    if c <= '9' then c as int - '0' as int
    else if c <= 'F' then c as int - 'A' as int + 10
    else c as int - 'a' as int + 10
  }

  /** ASCII lower-casing of one character; `str.lower()` on hex digits. */
  function LowerChar(c: char): (d: char)
    ensures IsHexChar(c) ==> IsLowerHexChar(d) && HexValue(d) == DigitValue(c)
    ensures IsLowerHexChar(c) ==> d == c
  {
    if 'A' <= c <= 'Z' then (c as int - 'A' as int + 'a' as int) as char else c
  }

  /**
   * `str.lower()` on a string: a string of hex digits becomes lower-case hex
   * with the same digit values, and lower-case hex is left as it is.
   */
  function Lower(s: string): (r: string)
    ensures |r| == |s|
    ensures forall i :: 0 <= i < |s| ==> r[i] == LowerChar(s[i])
    ensures (forall i :: 0 <= i < |s| ==> IsHexChar(s[i])) ==>
      IsLowerHex(r) && forall i :: 0 <= i < |s| ==> HexValue(r[i]) == DigitValue(s[i])
    ensures IsLowerHex(s) ==> r == s
  {
    seq(|s|, i requires 0 <= i < |s| => LowerChar(s[i]))
  }

  function Zeros(n: nat): (z: string)
    ensures |z| == n && forall i :: 0 <= i < n ==> z[i] == '0'
  {
    seq(n, _ => '0')
  }

  /** Python's `str.zfill(width)` on a string without a sign: pad on the left with `0`. */
  function ZFill(s: string, width: nat): (r: string)
    ensures |r| == if |s| >= width then |s| else width
    ensures r[|r| - |s|..] == s
    ensures forall i :: 0 <= i < |r| - |s| ==> r[i] == '0'
  {
    if |s| >= width then s else Zeros(width - |s|) + s
  }

  /** The beneficiary slot: the address's 40 hex digits, lower-cased and zero-padded to 64. */
  function BeneficiarySlot(a: ChecksumAddress): (slot: string)
    ensures |slot| == SLOT_WIDTH
    ensures slot == Zeros(24) + Lower(a[2..])
    ensures IsLowerHex(slot)
    ensures forall i :: 0 <= i < 24 ==> slot[i] == '0'
    ensures forall i :: 24 <= i < SLOT_WIDTH ==> HexValue(slot[i]) == DigitValue(a[i - 22])
  {
    var hex := Lower(a[2..]);
    var slot := ZFill(hex, SLOT_WIDTH);
    assert slot == Zeros(24) + hex;
    slot
  }

  /**
   * The string surgery of `get_caldata_from_rpc`: keep the selector, overwrite the
   * first argument slot with the beneficiary, keep everything from character 74 on.
   * A payload of 10 to 74 characters loses whatever followed its selector.
   */
  function Rewrite(calldata: string, a: ChecksumAddress): (r: string)
    requires |calldata| >= SELECTOR_END
    ensures |r| == SLOT_END + (if |calldata| > SLOT_END then |calldata| - SLOT_END else 0)
    ensures r[..SELECTOR_END] == calldata[..SELECTOR_END]
    ensures r[SELECTOR_END..SLOT_END] == Zeros(24) + Lower(a[2..])
    ensures |calldata| > SLOT_END ==> r[SLOT_END..] == calldata[SLOT_END..]
    ensures StartsWith0x(r) <==> StartsWith0x(calldata)
  {
    var methodId := calldata[..SELECTOR_END];
    var remaining := if |calldata| > SLOT_END then calldata[SLOT_END..] else "";
    var r := methodId + BeneficiarySlot(a) + remaining;
    assert r[..SELECTOR_END] == methodId;
    assert r[SELECTOR_END..SLOT_END] == BeneficiarySlot(a);
    assert r[SLOT_END..] == remaining;
    r
  }

  /** Lines 143-157: find the transaction, take its `input`, turn bytes into `0x` + hex. */
  function RawCalldata(tx: TxLookup): (r: Result<string, CalldataError>)
    ensures r == Failure(MissingTransaction) <==> tx.NotFound? || tx.input.None?
    ensures r == Failure(UnsupportedInput) <==> tx.Found? && tx.input == Some(Unsupported)
    ensures r.Failure? ==> r.error == MissingTransaction || r.error == UnsupportedInput
    ensures tx.Found? && tx.input.Some? && tx.input.value.Text? ==> r == Success(tx.input.value.text)
    ensures tx.Found? && tx.input.Some? && tx.input.value.Bytes? ==>
      && r.Success?
      && |r.value| == 2 + 2 * |tx.input.value.bytes|
      && StartsWith0x(r.value)
      && IsLowerHex(r.value[2..])
      && BytesOfHex(r.value[2..]) == tx.input.value.bytes
  {
    match tx
    case NotFound => Failure(MissingTransaction)
    case Found(None) => Failure(MissingTransaction)
    case Found(Some(raw)) =>
      match raw
      case Bytes(b) =>
        var s := "0x" + HexOfBytes(b);
        assert s[2..] == HexOfBytes(b);
        HexRoundTrip(b);
        Success(s)
      case Text(t) => Success(t)
      case Unsupported => Failure(UnsupportedInput)
  }

  /**
   * `get_caldata_from_rpc` after the node call: every failure is one of the
   * `CalldataError` causes, and a success is the rewritten payload.
   */
  function GetCalldata(tx: TxLookup, beneficiary: Option<ChecksumAddress>): (r: Result<string, CalldataError>)
    ensures RawCalldata(tx).Failure? ==> r == RawCalldata(tx)
    ensures RawCalldata(tx).Success? ==>
      var c := RawCalldata(tx).value;
      && (r == Failure(TooShort) <==> |c| < SELECTOR_END)
      && (r == Failure(ChecksumFailed) <==> |c| >= SELECTOR_END && beneficiary.None?)
      && (r == Failure(RewriteRejected) <==> |c| >= SELECTOR_END && beneficiary.Some? && !StartsWith0x(c))
      && (r.Success? <==> |c| >= SELECTOR_END && beneficiary.Some? && StartsWith0x(c))
      && (r.Success? ==> r.value == Rewrite(c, beneficiary.value))
    ensures r.Success? ==> StartsWith0x(r.value) && |r.value| >= SLOT_END
  {
    match RawCalldata(tx)
    case Failure(e) => Failure(e)
    case Success(c) =>
      if |c| < SELECTOR_END then Failure(TooShort)
      else
        match beneficiary
        case None => Failure(ChecksumFailed)
        case Some(a) =>
          var modified := Rewrite(c, a);
          if !StartsWith0x(modified) || |modified| < SELECTOR_END then Failure(RewriteRejected)
          else Success(modified)
  }

  /** The slot's old contents never matter: two payloads that agree outside it rewrite alike. */
  lemma SlotContentsIrrelevant(c1: string, c2: string, a: ChecksumAddress)
    requires |c1| >= SELECTOR_END && |c2| >= SELECTOR_END
    requires c1[..SELECTOR_END] == c2[..SELECTOR_END]
    requires |c1| <= SLOT_END <==> |c2| <= SLOT_END
    requires |c1| > SLOT_END ==> c1[SLOT_END..] == c2[SLOT_END..]
    ensures Rewrite(c1, a) == Rewrite(c2, a)
  {
  }

  /** Rewriting an already rewritten payload changes nothing. */
  lemma RewriteIdempotent(c: string, a: ChecksumAddress)
    requires |c| >= SELECTOR_END
    ensures Rewrite(Rewrite(c, a), a) == Rewrite(c, a)
  {
  }

  /** A payload of at least 74 characters keeps its length: the rewrite is an overwrite in place. */
  lemma RewriteKeepsLongLength(c: string, a: ChecksumAddress)
    requires |c| >= SLOT_END
    ensures |Rewrite(c, a)| == |c|
  {
  }

  /**
   * Bytes from the node always pass the final check: they are rejected exactly
   * when they hold fewer than the 4 selector bytes, or when no checksummed
   * beneficiary is available.
   */
  lemma BytesInputAccepted(b: seq<byte>, beneficiary: Option<ChecksumAddress>)
    ensures GetCalldata(Found(Some(Bytes(b))), beneficiary).Success? <==> |b| >= 4 && beneficiary.Some?
    ensures GetCalldata(Found(Some(Bytes(b))), beneficiary) != Failure(RewriteRejected)
  {
  }

  /** Text calldata is not lower-cased: a selector written in upper case reaches the output as is. */
  lemma TextKeptVerbatim(t: string, a: ChecksumAddress)
    requires |t| >= SELECTOR_END && StartsWith0x(t)
    ensures GetCalldata(Found(Some(Text(t))), Some(a)) == Success(Rewrite(t, a))
    ensures GetCalldata(Found(Some(Text(t))), Some(a)).value[..SELECTOR_END] == t[..SELECTOR_END]
  {
  }
}
