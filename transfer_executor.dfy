/**
 * Transfer Executor: the outcome of a control transfer, and the bytes a SET of a
 * command word puts on the wire.
 */
module TransferExecutor {
  import opened XuTypes

  /**
   * A transfer succeeded when the library reports exactly the expected number of
   * bytes moved: 60 for the version read, 4 for a command word.
   */
  function Succeeded(ret: int, expected: nat): (ok: bool)
  {
    ret == expected
  }

  /** A negative return (a library error code) is never a success, whatever was expected. */
  lemma NegativeNeverSucceeds(ret: int, expected: nat)
    requires ret < 0
    ensures !Succeeded(ret, expected)
  {
  }

  /** Order in which the host stores the bytes of an unsigned int. */
  datatype ByteOrder = LittleEndian | BigEndian

  /** The four bytes of `w` in memory, which are the bytes the SET transfer sends. */
  function EncodeWord(w: uint32, order: ByteOrder): (b: seq<byte>)
    ensures |b| == COMMAND_WORD_LENGTH
  {
    var q1 := w as int / 0x100;
    var q2 := q1 / 0x100;
    var q3 := q2 / 0x100;
    var low := [(w as int % 0x100) as byte, (q1 % 0x100) as byte, (q2 % 0x100) as byte, q3 as byte];
    match order
    case LittleEndian => low
    case BigEndian => [low[3], low[2], low[1], low[0]]
  }

  /** The word a device reads back from four bytes in the given order. */
  function DecodeWord(b: seq<byte>, order: ByteOrder): uint32
    requires |b| == COMMAND_WORD_LENGTH
  {
    var low := match order
      case LittleEndian => b
      case BigEndian => [b[3], b[2], b[1], b[0]];
    (low[0] as int + 0x100 * (low[1] as int + 0x100 * (low[2] as int + 0x100 * low[3] as int)))
      as uint32
  }

  /** Every command word is recovered from its wire bytes, in either byte order. */
  lemma DecodeEncode(w: uint32, order: ByteOrder)
    ensures DecodeWord(EncodeWord(w, order), order) == w
  {
    var n := w as int;
    var q1 := n / 0x100;
    var q2 := q1 / 0x100;
    var q3 := q2 / 0x100;
    assert q3 < 0x100;
    assert n == n % 0x100 + 0x100 * (q1 % 0x100 + 0x100 * (q2 % 0x100 + 0x100 * q3));
  }

  /** Every four-byte payload is the encoding of exactly one word. */
  lemma EncodeDecode(b: seq<byte>, order: ByteOrder)
    requires |b| == COMMAND_WORD_LENGTH
    ensures EncodeWord(DecodeWord(b, order), order) == b
  {
    var low := match order
      case LittleEndian => b
      case BigEndian => [b[3], b[2], b[1], b[0]];
    var b0, b1, b2, b3 := low[0] as int, low[1] as int, low[2] as int, low[3] as int;
    var n := DecodeWord(b, order) as int;
    ByteSplit(n, b0, b1 + 0x100 * (b2 + 0x100 * b3));
    ByteSplit(n / 0x100, b1, b2 + 0x100 * b3);
    ByteSplit(n / 0x100 / 0x100, b2, b3);
    ByteSplit(n / 0x100 / 0x100 / 0x100, b3, 0);
  }

  /** Division of `n` by 256 when its low byte and the rest are known. */
  lemma ByteSplit(n: int, lo: int, hi: int)
    requires 0 <= lo < 0x100 && n == lo + 0x100 * hi
    ensures n % 0x100 == lo && n / 0x100 == hi
  {
  }

  /** The PTZ words on a little-endian host, as the device expects to receive them. */
  lemma PtzWordsOnLittleEndianHost()
    ensures EncodeWord(PTZ_ON_WORD, LittleEndian) == [1, 0, 0, 0]
    ensures EncodeWord(PTZ_PAUSED_WORD, LittleEndian) == [2, 0, 0, 0]
    ensures EncodeWord(PTZ_OFF_WORD, LittleEndian) == [0, 0, 0, 0]
  {
  }
}
