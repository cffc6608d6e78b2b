/** What travels between the manager and a drive: commands, the drive's answers, and the replies delivered. */
module DriveTypes {
  import opened Types

  datatype EraseMethod = Overwrite | BlockErase | CryptoErase

  datatype LogId =
    | ErrorLog | SmartLog | FirmwareSlot | CommandEffects | SelfTest | ChangedNamespaces
    | TelemetryHost | TelemetryController | Reservation | SanitizeLog | UnknownLog

  /** The log-specific field of a telemetry request. */
  datatype TelemetryLsp = RetainLog | CreateLog | OtherLsp

  datatype Command =
    | ScanControllers
    | Identify
    | PortInformation
    | HealthPoll
    | GetLog(lid: LogId, lsp: TelemetryLsp)
    | Sanitize(eraseMethod: EraseMethod)
    | Transfer
    | SecuritySend
    | SecurityReceive
    | Foreign            // any command of another drive's endpoint

  const READ_SMART := GetLog(SmartLog, RetainLog)
  const READ_SANITIZE := GetLog(SanitizeLog, RetainLog)

  datatype PortPage = PortPage(kind: byte, supported: bv8, maxLanes: byte, speed: byte, lanes: byte)

  datatype PortRead = PortRead(rc: int, page: PortPage)

  datatype HealthPage = HealthPage(status: bv8, lifeUsed: byte)

  datatype SanitizePage = SanitizePage(
    status: nat,
    overwrite: nat, blockErase: nat, cryptoErase: nat,
    overwriteNd: nat, blockEraseNd: nat, cryptoEraseNd: nat)

  const ZERO_SANITIZE_PAGE := SanitizePage(0, 0, 0, 0, 0, 0, 0)

  datatype Payload =
    | Controllers(list: seq<nat>)
    | Identity(sanicap: bv32)
    | Port(port: PortPage)
    | Health(health: HealthPage)
    | Smart(warning: bv8)
    | SanitizeStatus(log: SanitizePage)
    | Raw
    | NoData             // a null pointer or an empty span

  datatype ErrorCode = Errno(code: nat) | BadMessage | NoSuchDevice | ProtocolError

  datatype Reply = Good(payload: Payload) | Bad(error: ErrorCode)

  type PortReads = r: seq<PortRead> | r != [] witness [PortRead(0, PortPage(0, 0, 0, 0, 0))]

  /**
   What the drive (and the library that talks to it) answers to a command: the return
   code, the system error number, and what a zero return code brings for each kind of
   command.  A port command reads every port; a security receive may return too much.
   */
  datatype Answer = Answer(
    rc: int, errno: nat,
    controllers: seq<nat>, sanicap: bv32, ports: PortReads, health: HealthPage,
    warning: bv8, log: SanitizePage, excess: bool)
}
