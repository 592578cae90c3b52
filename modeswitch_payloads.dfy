/**
 * The three 31-byte payloads the mode-switch tool sends over bulk OUT, and the command block
 * wrapper (CBW) layout of section 5.1 of the USB Mass Storage Class Bulk-Only Transport 1.0
 * specification that they follow: signature, tag, data transfer length, flags, LUN, command
 * block length and a 16-byte command block.
 */
module ModeSwitchPayloads {
  import opened Basics

  const CBW_LENGTH := 31
  /** dCBWSignature 0x43425355, little-endian: the bytes of "USBC". */
  const CBW_SIGNATURE: seq<byte> := [0x55, 0x53, 0x42, 0x43]
  /** The largest command block length the 16-byte CBWCB field holds. */
  const CBWCB_CAPACITY := 16

  /** SCSI START STOP UNIT. */
  const SCSI_START_STOP_UNIT: byte := 0x1B
  /** The LoEj bit in byte 4 of START STOP UNIT: load or eject the medium. */
  const START_STOP_LOEJ: byte := 0x02

  datatype Payload = SwitchMessage1 | SwitchMessage2 | EjectMessage

  /** `huawei_switch_msg[]`. */
  const SwitchMessage1Bytes: seq<byte> := [
    0x55, 0x53, 0x42, 0x43,
    0x12, 0x34, 0x56, 0x78,
    0x00, 0x00, 0x00, 0x00,
    0x00,
    0x00,
    0x11,
    0x11, 0x06, 0x20, 0x00, 0x00, 0x01, 0x00, 0x00,
    0x00, 0x00, 0x00, 0x00, 0x00, 0x00, 0x00, 0x00
  ]

  /** `huawei_switch_msg2[]`. */
  const SwitchMessage2Bytes: seq<byte> := [
    0x55, 0x53, 0x42, 0x43,
    0x12, 0x34, 0x56, 0x79,
    0x00, 0x00, 0x00, 0x00,
    0x00, 0x00, 0x11,
    0x11, 0x06, 0x00, 0x00, 0x00, 0x00, 0x00, 0x00,
    0x01, 0x00, 0x00, 0x00, 0x00, 0x00, 0x00, 0x00
  ]

  /** `eject_msg[]`. */
  const EjectMessageBytes: seq<byte> := [
    0x55, 0x53, 0x42, 0x43,
    0x12, 0x34, 0x56, 0x7A,
    0x00, 0x00, 0x00, 0x00,
    0x00, 0x00, 0x06,
    0x1b, 0x00, 0x00, 0x00, 0x02, 0x00,
    0x00, 0x00, 0x00, 0x00, 0x00, 0x00, 0x00, 0x00, 0x00, 0x00
  ]

  function Bytes(p: Payload): seq<byte> {
    match p
    case SwitchMessage1 => SwitchMessage1Bytes
    case SwitchMessage2 => SwitchMessage2Bytes
    case EjectMessage => EjectMessageBytes
  }

  /** A little-endian 32-bit field. */
  function LittleEndian32(cbw: seq<byte>, at: nat): nat
    requires at + 4 <= |cbw|
  {
    cbw[at] as int + 0x100 * cbw[at + 1] as int + 0x1_0000 * cbw[at + 2] as int + 0x100_0000 * cbw[at + 3] as int
  }

  // The CBW fields, at the offsets section 5.1 gives them.
  function Signature(cbw: seq<byte>): seq<byte> requires |cbw| == CBW_LENGTH { cbw[0..4] }
  function Tag(cbw: seq<byte>): nat requires |cbw| == CBW_LENGTH { LittleEndian32(cbw, 4) }
  function DataTransferLength(cbw: seq<byte>): nat requires |cbw| == CBW_LENGTH { LittleEndian32(cbw, 8) }
  function Flags(cbw: seq<byte>): byte requires |cbw| == CBW_LENGTH { cbw[12] }
  function Lun(cbw: seq<byte>): byte requires |cbw| == CBW_LENGTH { cbw[13] }
  function CommandLength(cbw: seq<byte>): byte requires |cbw| == CBW_LENGTH { cbw[14] }
  function CommandBlock(cbw: seq<byte>): seq<byte> requires |cbw| == CBW_LENGTH { cbw[15..] }

  /** Each payload is a 31-byte CBW with the "USBC" signature, no data stage, flags 0 and LUN 0. */
  lemma PayloadsAreCbws(p: Payload)
    ensures |Bytes(p)| == CBW_LENGTH
    ensures Signature(Bytes(p)) == CBW_SIGNATURE
    ensures DataTransferLength(Bytes(p)) == 0 && Flags(Bytes(p)) == 0 && Lun(Bytes(p)) == 0
  {
  }

  /** The three tags, 0x78563412, 0x79563412 and 0x7A563412, are pairwise distinct. */
  lemma TagsDistinct()
    ensures Tag(SwitchMessage1Bytes) == 0x7856_3412
    ensures Tag(SwitchMessage2Bytes) == 0x7956_3412
    ensures Tag(EjectMessageBytes) == 0x7A56_3412
    ensures forall p, q :: p != q ==> Tag(Bytes(p)) != Tag(Bytes(q))
  {
  }

  /**
   * The eject payload carries a 6-byte START STOP UNIT command with LoEj set and Start clear
   * (eject the medium); the rest of its command block is zero.
   */
  lemma EjectIsStartStopUnit()
    ensures CommandLength(EjectMessageBytes) == 6
    ensures CommandBlock(EjectMessageBytes)[..6] == [SCSI_START_STOP_UNIT, 0x00, 0x00, 0x00, START_STOP_LOEJ, 0x00]
    ensures CommandBlock(EjectMessageBytes)[4] % 4 == START_STOP_LOEJ
    ensures forall i :: 6 <= i < CBWCB_CAPACITY ==> CommandBlock(EjectMessageBytes)[i] == 0
  {
  }

  /**
   * Both vendor payloads declare a command block length of 0x11, one more than the 16 bytes of
   * the CBWCB field, so the declared length is outside the range section 5.1 allows.
   */
  lemma VendorCommandLengthExceedsField()
    ensures CommandLength(SwitchMessage1Bytes) == 0x11 > CBWCB_CAPACITY
    ensures CommandLength(SwitchMessage2Bytes) == 0x11 > CBWCB_CAPACITY
    ensures |CommandBlock(SwitchMessage1Bytes)| == |CommandBlock(SwitchMessage2Bytes)| == CBWCB_CAPACITY
  {
  }
}
