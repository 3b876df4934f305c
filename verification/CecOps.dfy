/** The operations of the CEC message helpers: one value of `Op` stands for one
call of a `cec_msg_*` builder together with its arguments. */
module CecOps {
  import opened CecBytes

  type u8 = n: nat | n < 0x100

  type u32 = n: nat | n < 0x1_0000_0000

  // ---------- Opcodes ----------

  const MSG_FEATURE_ABORT: bv8 := 0x00
  const MSG_IMAGE_VIEW_ON: bv8 := 0x04
  const MSG_TUNER_STEP_INCREMENT: bv8 := 0x05
  const MSG_TUNER_STEP_DECREMENT: bv8 := 0x06
  const MSG_TUNER_DEVICE_STATUS: bv8 := 0x07
  const MSG_GIVE_TUNER_DEVICE_STATUS: bv8 := 0x08
  const MSG_RECORD_ON: bv8 := 0x09
  const MSG_RECORD_STATUS: bv8 := 0x0a
  const MSG_RECORD_OFF: bv8 := 0x0b
  const MSG_TEXT_VIEW_ON: bv8 := 0x0d
  const MSG_RECORD_TV_SCREEN: bv8 := 0x0f
  const MSG_GIVE_DECK_STATUS: bv8 := 0x1a
  const MSG_DECK_STATUS: bv8 := 0x1b
  const MSG_SET_MENU_LANGUAGE: bv8 := 0x32
  const MSG_CLEAR_ANALOGUE_TIMER: bv8 := 0x33
  const MSG_SET_ANALOGUE_TIMER: bv8 := 0x34
  const MSG_TIMER_STATUS: bv8 := 0x35
  const MSG_STANDBY: bv8 := 0x36
  const MSG_PLAY: bv8 := 0x41
  const MSG_DECK_CONTROL: bv8 := 0x42
  const MSG_TIMER_CLEARED_STATUS: bv8 := 0x43
  const MSG_USER_CONTROL_PRESSED: bv8 := 0x44
  const MSG_USER_CONTROL_RELEASED: bv8 := 0x45
  const MSG_GIVE_OSD_NAME: bv8 := 0x46
  const MSG_SET_OSD_NAME: bv8 := 0x47
  const MSG_SET_OSD_STRING: bv8 := 0x64
  const MSG_SET_TIMER_PROGRAM_TITLE: bv8 := 0x67
  const MSG_SYSTEM_AUDIO_MODE_REQUEST: bv8 := 0x70
  const MSG_GIVE_AUDIO_STATUS: bv8 := 0x71
  const MSG_SET_SYSTEM_AUDIO_MODE: bv8 := 0x72
  const MSG_REPORT_AUDIO_STATUS: bv8 := 0x7a
  const MSG_GIVE_SYSTEM_AUDIO_MODE_STATUS: bv8 := 0x7d
  const MSG_SYSTEM_AUDIO_MODE_STATUS: bv8 := 0x7e
  const MSG_ROUTING_CHANGE: bv8 := 0x80
  const MSG_ROUTING_INFORMATION: bv8 := 0x81
  const MSG_ACTIVE_SOURCE: bv8 := 0x82
  const MSG_GIVE_PHYSICAL_ADDR: bv8 := 0x83
  const MSG_REPORT_PHYSICAL_ADDR: bv8 := 0x84
  const MSG_REQUEST_ACTIVE_SOURCE: bv8 := 0x85
  const MSG_SET_STREAM_PATH: bv8 := 0x86
  const MSG_DEVICE_VENDOR_ID: bv8 := 0x87
  const MSG_VENDOR_COMMAND: bv8 := 0x89
  const MSG_VENDOR_REMOTE_BUTTON_DOWN: bv8 := 0x8a
  const MSG_VENDOR_REMOTE_BUTTON_UP: bv8 := 0x8b
  const MSG_GIVE_DEVICE_VENDOR_ID: bv8 := 0x8c
  const MSG_MENU_REQUEST: bv8 := 0x8d
  const MSG_MENU_STATUS: bv8 := 0x8e
  const MSG_GIVE_DEVICE_POWER_STATUS: bv8 := 0x8f
  const MSG_REPORT_POWER_STATUS: bv8 := 0x90
  const MSG_GET_MENU_LANGUAGE: bv8 := 0x91
  const MSG_SELECT_ANALOGUE_SERVICE: bv8 := 0x92
  const MSG_SELECT_DIGITAL_SERVICE: bv8 := 0x93
  const MSG_SET_DIGITAL_TIMER: bv8 := 0x97
  const MSG_CLEAR_DIGITAL_TIMER: bv8 := 0x99
  const MSG_SET_AUDIO_RATE: bv8 := 0x9a
  const MSG_INACTIVE_SOURCE: bv8 := 0x9d
  const MSG_CEC_VERSION: bv8 := 0x9e
  const MSG_GET_CEC_VERSION: bv8 := 0x9f
  const MSG_VENDOR_COMMAND_WITH_ID: bv8 := 0xa0
  const MSG_CLEAR_EXT_TIMER: bv8 := 0xa1
  const MSG_SET_EXT_TIMER: bv8 := 0xa2
  const MSG_REPORT_SHORT_AUDIO_DESCRIPTOR: bv8 := 0xa3
  const MSG_REQUEST_SHORT_AUDIO_DESCRIPTOR: bv8 := 0xa4
  const MSG_GIVE_FEATURES: bv8 := 0xa5
  const MSG_REPORT_FEATURES: bv8 := 0xa6
  const MSG_REQUEST_CURRENT_LATENCY: bv8 := 0xa7
  const MSG_REPORT_CURRENT_LATENCY: bv8 := 0xa8
  const MSG_INITIATE_ARC: bv8 := 0xc0
  const MSG_REPORT_ARC_INITIATED: bv8 := 0xc1
  const MSG_REPORT_ARC_TERMINATED: bv8 := 0xc2
  const MSG_REQUEST_ARC_INITIATION: bv8 := 0xc3
  const MSG_REQUEST_ARC_TERMINATION: bv8 := 0xc4
  const MSG_TERMINATE_ARC: bv8 := 0xc5
  const MSG_CDC_MESSAGE: bv8 := 0xf8
  const MSG_ABORT: bv8 := 0xff

  const CDC_HEC_INQUIRE_STATE: bv8 := 0x00
  const CDC_HEC_REPORT_STATE: bv8 := 0x01
  const CDC_HEC_SET_STATE_ADJACENT: bv8 := 0x02
  const CDC_HEC_REQUEST_DEACTIVATION: bv8 := 0x04
  const CDC_HEC_NOTIFY_ALIVE: bv8 := 0x05
  const CDC_HEC_DISCOVER: bv8 := 0x06
  const CDC_HPD_SET_STATE: bv8 := 0x10
  const CDC_HPD_REPORT_STATE: bv8 := 0x11

  const RECORD_SRC_OWN: bv8 := 1
  const RECORD_SRC_DIGITAL: bv8 := 2
  const RECORD_SRC_ANALOG: bv8 := 3
  const RECORD_SRC_EXT_PLUG: bv8 := 4
  const RECORD_SRC_EXT_PHYS_ADDR: bv8 := 5

  const SERVICE_ID_METHOD_BY_CHANNEL: bv8 := 1

  const PROG_INFO_NOT_ENOUGH_SPACE: bv8 := 0x09
  const PROG_INFO_MIGHT_NOT_BE_ENOUGH_SPACE: bv8 := 0x0b
  const PROG_ERROR_DUPLICATE: bv8 := 0x0e

  const FEAT_EXT: bv8 := 0x80

  const PHYS_ADDR_INVALID: bv16 := 0xffff

  /** Builders that write nothing but their opcode. */
  predicate IsBare(b: bv8) {
    || b == MSG_IMAGE_VIEW_ON || b == MSG_TEXT_VIEW_ON || b == MSG_REQUEST_ACTIVE_SOURCE
    || b == MSG_STANDBY || b == MSG_RECORD_OFF || b == MSG_RECORD_TV_SCREEN
    || b == MSG_GET_CEC_VERSION || b == MSG_GIVE_PHYSICAL_ADDR || b == MSG_GET_MENU_LANGUAGE
    || b == MSG_GIVE_FEATURES || b == MSG_TUNER_STEP_DECREMENT || b == MSG_TUNER_STEP_INCREMENT
    || b == MSG_GIVE_DEVICE_VENDOR_ID || b == MSG_VENDOR_REMOTE_BUTTON_UP || b == MSG_GIVE_OSD_NAME
    || b == MSG_USER_CONTROL_RELEASED || b == MSG_GIVE_DEVICE_POWER_STATUS || b == MSG_ABORT
    || b == MSG_GIVE_AUDIO_STATUS || b == MSG_GIVE_SYSTEM_AUDIO_MODE_STATUS
    || b == MSG_REPORT_ARC_INITIATED || b == MSG_INITIATE_ARC || b == MSG_REQUEST_ARC_INITIATION
    || b == MSG_REPORT_ARC_TERMINATED || b == MSG_TERMINATE_ARC || b == MSG_REQUEST_ARC_TERMINATION
  }

  /** Builders with a single operand byte, copied unchanged. */
  predicate IsOneByte(b: bv8) {
    || b == MSG_RECORD_STATUS || b == MSG_TIMER_CLEARED_STATUS || b == MSG_CEC_VERSION
    || b == MSG_DECK_CONTROL || b == MSG_DECK_STATUS || b == MSG_GIVE_DECK_STATUS || b == MSG_PLAY
    || b == MSG_GIVE_TUNER_DEVICE_STATUS || b == MSG_MENU_STATUS || b == MSG_MENU_REQUEST
    || b == MSG_REPORT_POWER_STATUS || b == MSG_SET_SYSTEM_AUDIO_MODE
    || b == MSG_SYSTEM_AUDIO_MODE_STATUS || b == MSG_SET_AUDIO_RATE
  }

  /** Builders whose only operand is a physical address. */
  predicate IsAddress(b: bv8) {
    || b == MSG_ACTIVE_SOURCE || b == MSG_INACTIVE_SOURCE || b == MSG_ROUTING_INFORMATION
    || b == MSG_SET_STREAM_PATH || b == MSG_REQUEST_CURRENT_LATENCY
  }

  predicate IsText(b: bv8) { b == MSG_SET_TIMER_PROGRAM_TITLE || b == MSG_SET_OSD_NAME }

  predicate IsBlob(b: bv8) { b == MSG_VENDOR_COMMAND || b == MSG_VENDOR_REMOTE_BUTTON_DOWN }

  /** Builders that set the destination nibble to 0xf. */
  predicate IsBroadcast(b: bv8) {
    || b == MSG_ACTIVE_SOURCE || b == MSG_REQUEST_ACTIVE_SOURCE || b == MSG_ROUTING_INFORMATION
    || b == MSG_ROUTING_CHANGE || b == MSG_SET_STREAM_PATH || b == MSG_REPORT_PHYSICAL_ADDR
    || b == MSG_SET_MENU_LANGUAGE || b == MSG_REPORT_FEATURES || b == MSG_DEVICE_VENDOR_ID
    || b == MSG_REPORT_CURRENT_LATENCY || b == MSG_REQUEST_CURRENT_LATENCY || b == MSG_CDC_MESSAGE
  }

  /** The opcode a builder with a `reply` argument waits for; 0 for a builder
      that has no such argument and leaves the field alone. */
  function ReplyOpcode(b: bv8): bv8 {
    if b == MSG_REQUEST_ACTIVE_SOURCE then MSG_ACTIVE_SOURCE
    else if b == MSG_ROUTING_CHANGE then MSG_ROUTING_INFORMATION
    else if b == MSG_RECORD_OFF || b == MSG_RECORD_ON then MSG_RECORD_STATUS
    else if b == MSG_RECORD_TV_SCREEN then MSG_RECORD_ON
    else if b == MSG_CLEAR_ANALOGUE_TIMER || b == MSG_CLEAR_DIGITAL_TIMER || b == MSG_CLEAR_EXT_TIMER
    then MSG_TIMER_CLEARED_STATUS
    else if b == MSG_SET_ANALOGUE_TIMER || b == MSG_SET_DIGITAL_TIMER || b == MSG_SET_EXT_TIMER
    then MSG_TIMER_STATUS
    else if b == MSG_GET_CEC_VERSION then MSG_CEC_VERSION
    else if b == MSG_GIVE_PHYSICAL_ADDR then MSG_REPORT_PHYSICAL_ADDR
    else if b == MSG_GET_MENU_LANGUAGE then MSG_SET_MENU_LANGUAGE
    else if b == MSG_GIVE_FEATURES then MSG_REPORT_FEATURES
    else if b == MSG_GIVE_DECK_STATUS then MSG_DECK_STATUS
    else if b == MSG_GIVE_TUNER_DEVICE_STATUS then MSG_TUNER_DEVICE_STATUS
    else if b == MSG_GIVE_DEVICE_VENDOR_ID then MSG_DEVICE_VENDOR_ID
    else if b == MSG_GIVE_OSD_NAME then MSG_SET_OSD_NAME
    else if b == MSG_MENU_REQUEST then MSG_MENU_STATUS
    else if b == MSG_GIVE_DEVICE_POWER_STATUS then MSG_REPORT_POWER_STATUS
    else if b == MSG_GIVE_AUDIO_STATUS then MSG_REPORT_AUDIO_STATUS
    else if b == MSG_SYSTEM_AUDIO_MODE_REQUEST then MSG_SET_SYSTEM_AUDIO_MODE
    else if b == MSG_GIVE_SYSTEM_AUDIO_MODE_STATUS then MSG_SYSTEM_AUDIO_MODE_STATUS
    else if b == MSG_REQUEST_SHORT_AUDIO_DESCRIPTOR then MSG_REPORT_SHORT_AUDIO_DESCRIPTOR
    else if b == MSG_INITIATE_ARC then MSG_REPORT_ARC_INITIATED
    else if b == MSG_REQUEST_ARC_INITIATION then MSG_INITIATE_ARC
    else if b == MSG_TERMINATE_ARC then MSG_REPORT_ARC_TERMINATED
    else if b == MSG_REQUEST_ARC_TERMINATION then MSG_TERMINATE_ARC
    else if b == MSG_REQUEST_CURRENT_LATENCY then MSG_REPORT_CURRENT_LATENCY
    else 0
  }

  // ---------- Operands ----------

  /** `struct cec_op_digital_service_id`.  Its union is six bytes of storage,
      seen as three 16-bit words: ARIB and DVB use all three, ATSC the first
      two, and a channel keeps its format in the low byte of the first word
      (a little-endian layout), its major number in the second and its minor
      number in the third. */
  datatype Digital = Digital(idMethod: bv8, system: bv8, w0: bv16, w1: bv16, w2: bv16) {
    predicate ByChannel() { idMethod == SERVICE_ID_METHOD_BY_CHANNEL }

    predicate Atsc() { system == 0x01 || system == 0x10 || system == 0x11 || system == 0x12 }

    function Format(): bv8 { Lo(w0) }
  }

  datatype Analogue = Analogue(bcastType: bv8, freq: bv16, system: bv8)

  datatype Service = AnalogueService(analogue: Analogue) | DigitalService(digital: Digital)

  /** `struct cec_op_record_src`: a tag and the arm that the tag selects. */
  datatype RecordSrc =
    | Own
    | DigitalSrc(digital: Digital)
    | AnalogueSrc(analogue: Analogue)
    | Plug(plug: bv8)
    | ExtAddress(addr: bv16)
    | UnknownSrc(tag: bv8)

  datatype TimerInfo = TimerInfo(overlap: bv8, media: bv8, progInfo: bv8, progError: bv8, hr: bv8, min: bv8)

  datatype TimerSlot = TimerSlot(day: bv8, month: bv8, startHr: bv8, startMin: bv8,
                                 durHr: bv8, durMin: bv8, recSeq: bv8)

  datatype TimerSrc =
    | AnalogueTimer(analogue: Analogue)
    | DigitalTimer(digital: Digital)
    | ExtTimer(spec: bv8, plug: bv8, addr: bv16)

  /** `struct cec_op_ui_command`.  All seven union members start at the same
      byte, so the one-byte operand (`play_mode` and its aliases) is the
      storage of the channel format. */
  datatype UiCommand = UiCommand(cmd: bv8, hasArg: bool, first: bv8, major: bv16, minor: bv16) {
    predicate TakesByte() {
      cmd == 0x56 || cmd == 0x57 || cmd == 0x60 || cmd == 0x68 || cmd == 0x69 || cmd == 0x6a
    }

    predicate TakesChannel() { cmd == 0x67 }
  }

  datatype CdcOp =
    | HecInquireState(addr1: bv16, addr2: bv16)
    | HecReportState(target: bv16, hec: bv8, host: bv8, enc: bv8, err: bv8, hasField: bool, field: bv16)
    | HecSetState(addr1: bv16, addr2: bv16, state: bv8, addr3: bv16, addr4: bv16, addr5: bv16)
    | HecSetStateAdjacent(addr1: bv16, state: bv8)
    | HecRequestDeactivation(addr1: bv16, addr2: bv16, addr3: bv16)
    | HecNotifyAlive
    | HecDiscover
    | HpdSetState(port: bv8, hpd: bv8)
    | HpdReportState(hpd: bv8, hpdError: bv8)

  /** One call of a builder. */
  datatype Op =
    | Bare(opcode: bv8, reply: bool)
    | OneByte(opcode: bv8, reply: bool, operand: bv8)
    | Address(opcode: bv8, reply: bool, addr: bv16)
    | RoutingChange(reply: bool, from: bv16, to: bv16)
    | RecordOn(reply: bool, src: RecordSrc)
    | TimerStatus(info: TimerInfo)
    | Timer(set_: bool, reply: bool, slot: TimerSlot, timerSrc: TimerSrc)
    | Text(opcode: bv8, text: seq<bv8>)
    | OsdString(ctl: bv8, text: seq<bv8>)
    | Blob(opcode: bv8, size: u8, data: seq<bv8>)
    | VendorCommandWithId(vendor: bv32, size: u8, data: seq<bv8>)
    | ReportPhysicalAddr(addr: bv16, devType: bv8)
    | SetMenuLanguage(language: seq<bv8>)
    | ReportFeatures(version: bv8, devTypes: bv8, rcProfile: bv8, devFeatures: bv8)
    | TunerStatus(recFlag: bv8, display: bv8, service: Service)
    | SelectService(service: Service)
    | DeviceVendorId(vendor: bv32)
    | UserControl(ui: UiCommand)
    | FeatureAbort(aborted: bv8, reason: bv8)
    | AudioStatus(mute: bv8, volume: bv8)
    | SystemAudioRequest(reply: bool, addr: bv16)
    | ReportDescriptors(num: u8, descriptors: seq<bv32>)
    | RequestDescriptors(reply: bool, num: u8, ids: seq<bv8>, codes: seq<bv8>)
    | ReportLatency(addr: bv16, video: bv8, lowLatency: bv8, compensated: bv8, delay: bv8)
    | Cdc(cdc: CdcOp)

  function TimerOpcode(set_: bool, src: TimerSrc): bv8 {
    match src
    case AnalogueTimer(_) => if set_ then MSG_SET_ANALOGUE_TIMER else MSG_CLEAR_ANALOGUE_TIMER
    case DigitalTimer(_) => if set_ then MSG_SET_DIGITAL_TIMER else MSG_CLEAR_DIGITAL_TIMER
    case ExtTimer(_, _, _) => if set_ then MSG_SET_EXT_TIMER else MSG_CLEAR_EXT_TIMER
  }

  function Opcode(op: Op): bv8 {
    match op
    case Bare(opcode, _) => opcode
    case OneByte(opcode, _, _) => opcode
    case Address(opcode, _, _) => opcode
    case RoutingChange(_, _, _) => MSG_ROUTING_CHANGE
    case RecordOn(_, _) => MSG_RECORD_ON
    case TimerStatus(_) => MSG_TIMER_STATUS
    case Timer(set_, _, _, src) => TimerOpcode(set_, src)
    case Text(opcode, _) => opcode
    case OsdString(_, _) => MSG_SET_OSD_STRING
    case Blob(opcode, _, _) => opcode
    case VendorCommandWithId(_, _, _) => MSG_VENDOR_COMMAND_WITH_ID
    case ReportPhysicalAddr(_, _) => MSG_REPORT_PHYSICAL_ADDR
    case SetMenuLanguage(_) => MSG_SET_MENU_LANGUAGE
    case ReportFeatures(_, _, _, _) => MSG_REPORT_FEATURES
    case TunerStatus(_, _, _) => MSG_TUNER_DEVICE_STATUS
    case SelectService(AnalogueService(_)) => MSG_SELECT_ANALOGUE_SERVICE
    case SelectService(DigitalService(_)) => MSG_SELECT_DIGITAL_SERVICE
    case DeviceVendorId(_) => MSG_DEVICE_VENDOR_ID
    case UserControl(_) => MSG_USER_CONTROL_PRESSED
    case FeatureAbort(_, _) => MSG_FEATURE_ABORT
    case AudioStatus(_, _) => MSG_REPORT_AUDIO_STATUS
    case SystemAudioRequest(_, _) => MSG_SYSTEM_AUDIO_MODE_REQUEST
    case ReportDescriptors(_, _) => MSG_REPORT_SHORT_AUDIO_DESCRIPTOR
    case RequestDescriptors(_, _, _, _) => MSG_REQUEST_SHORT_AUDIO_DESCRIPTOR
    case ReportLatency(_, _, _, _, _) => MSG_REPORT_CURRENT_LATENCY
    case Cdc(_) => MSG_CDC_MESSAGE
  }

  /** The `reply` argument of the call, false where the builder has none. */
  function ReplyFlag(op: Op): bool {
    match op
    case Bare(_, reply) => reply
    case OneByte(_, reply, _) => reply
    case Address(_, reply, _) => reply
    case RoutingChange(reply, _, _) => reply
    case RecordOn(reply, _) => reply
    case Timer(_, reply, _, _) => reply
    case SystemAudioRequest(reply, _) => reply
    case RequestDescriptors(reply, _, _, _) => reply
    case _ => false
  }

  function Min(a: nat, b: nat): nat { if a <= b then a else b }

  /** `unsigned int len = strlen(s)`: the length is kept in 32 bits. */
  function StrLen(s: seq<bv8>): nat { |s| % 0x1_0000_0000 }

  /** Only a builder with a `reply` argument can be called with it set. */
  predicate MayAsk(opcode: bv8, reply: bool) { reply ==> ReplyOpcode(opcode) != 0 }

  /** What C demands of the caller: an existing builder, NUL-free strings and
      readable memory behind every pointer. */
  predicate Valid(op: Op) {
    match op
    case Bare(opcode, reply) => IsBare(opcode) && MayAsk(opcode, reply)
    case OneByte(opcode, reply, _) => IsOneByte(opcode) && MayAsk(opcode, reply)
    case Address(opcode, reply, _) => IsAddress(opcode) && MayAsk(opcode, reply)
    case RecordOn(_, UnknownSrc(tag)) => tag == 0 || tag > 5
    case Text(opcode, text) => IsText(opcode) && 0 !in text
    case OsdString(_, text) => 0 !in text
    case Blob(opcode, size, data) => IsBlob(opcode) && Min(size, 14) <= |data|
    case VendorCommandWithId(_, size, data) => Min(size, 11) <= |data|
    case SetMenuLanguage(language) => |language| >= 3
    case ReportDescriptors(num, descriptors) => Min(num, 4) <= |descriptors|
    case RequestDescriptors(_, num, ids, codes) => Min(num, 4) <= |ids| && Min(num, 4) <= |codes|
    case _ => true
  }

  /** False only for `cec_msg_record_on` with a source type outside its switch:
      such a call writes no message. */
  predicate Effective(op: Op) { !(op.RecordOn? && op.src.UnknownSrc?) }
}
