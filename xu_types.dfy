/**
 * Values shared by the vendor extension-unit tool: bytes, 32-bit command words,
 * the extension-unit record the USB Video Class library hands back, and the
 * fixed constants of the vendor's command protocol.
 */
module XuTypes {

  newtype byte = x: int | 0 <= x < 0x100
  newtype uint32 = x: int | 0 <= x < 0x1_0000_0000

  datatype Option<+T> = None | Some(value: T)

  /** A command-line argument as C sees it: the characters before its terminating NUL. */
  type Arg = s: string | '\0' !in s

  /**
   * A 16-byte extension code: the guidExtensionCode field of the Extension Unit
   * Descriptor (section 3.7.2.6 of the USB Device Class Definition for Video Devices 1.1).
   */
  type Guid = s: seq<byte> | |s| == GUID_LENGTH
    witness [0, 0, 0, 0, 0, 0, 0, 0, 0, 0, 0, 0, 0, 0, 0, 0]

  /** The 60-byte buffer the version read fills. */
  type VersionBuffer = s: seq<byte> | |s| == VERSION_LENGTH
    witness seq(60, _ => 0)

  const GUID_LENGTH: nat := 16

  /** The vendor's extension code, a29e7641-de04-47e3-8b2b-f4341aff003b, byte by byte. */
  const VENDOR_GUID: Guid := [
    0xa2, 0x9e, 0x76, 0x41, 0xde, 0x04, 0x47, 0xe3,
    0x8b, 0x2b, 0xf4, 0x34, 0x1a, 0xff, 0x00, 0x3b ]

  /** Control selectors of the vendor extension unit. */
  const VERSION_SELECTOR: byte := 0x2
  const LOADER_SELECTOR: byte := 0x1   // loader and reboot
  const PTZ_SELECTOR: byte := 0xA      // on, off, paused

  /** Bytes read by the version query, and bytes of a command word (sizeof(unsigned int)). */
  const VERSION_LENGTH: nat := 60
  const COMMAND_WORD_LENGTH: nat := 4

  /** Command words written by the SET transfers. */
  const LOADER_WORD: uint32 := 0xFFFF_FFFF
  const REBOOT_WORD: uint32 := 0xFFFF_FFF1
  const PTZ_OFF_WORD: uint32 := 0
  const PTZ_ON_WORD: uint32 := 1
  const PTZ_PAUSED_WORD: uint32 := 2

  /** The first extension unit of an opened device; later units in the list are never looked at. */
  datatype ExtensionUnit = ExtensionUnit(unitId: byte, guid: Guid)

  /**
   * The word a SET transfer sends. `Unspecified` stands for a word the program
   * reads before ever assigning it, whose value the C language leaves undefined.
   */
  datatype Payload = Word(word: uint32) | Unspecified
}
