/**
 The NVMe-MI operations: what the function object that an operation queues on the
 worker does once the worker runs it.  It calls the drive and posts the outcome to
 the main loop.
 */
module NVMeMi {
  import opened Types
  import opened DriveTypes

  const PCIE_PORT: byte := 1
  const EINVAL: nat := 22

  // ------------------------------------------------------------ port selection

  /** The port that a scan of the port reads settles on, or nothing if a read fails first. */
  function SelectPort(readings: seq<PortRead>): Option<PortPage>
    requires readings != []
  {
    if readings[0].rc != 0 then None
    else if readings[0].page.kind == PCIE_PORT || |readings| == 1 then Some(readings[0].page)
    else SelectPort(readings[1..])
  }

  /** Every port before the i-th was read and is not a PCIe port. */
  predicate PassesOver(readings: seq<PortRead>, i: nat)
    requires i <= |readings|
  {
    forall j :: 0 <= j < i ==> readings[j].rc == 0 && readings[j].page.kind != PCIE_PORT
  }

  /** The lowest-numbered PCIe port, else the last port; an error exactly if a read fails before that. */
  lemma {:induction false} SelectPortSelects(readings: seq<PortRead>, i: nat)
    requires i < |readings| && PassesOver(readings, i)
    ensures readings[i].rc != 0 ==> SelectPort(readings) == None
    ensures readings[i].rc == 0 && (readings[i].page.kind == PCIE_PORT || i == |readings| - 1) ==>
              SelectPort(readings) == Some(readings[i].page)
  {
    if i > 0 {
      forall j | 0 <= j < i - 1 ensures readings[1..][j].rc == 0 && readings[1..][j].page.kind != PCIE_PORT {
        assert readings[1..][j] == readings[j + 1];
      }
      assert readings[0].rc == 0 && readings[0].page.kind != PCIE_PORT;
      SelectPortSelects(readings[1..], i - 1);
    }
  }

  /** Some port decides the selection, so the three cases above are all there are. */
  lemma {:induction false} SelectionIsDecided(readings: seq<PortRead>) returns (i: nat)
    requires readings != []
    ensures i < |readings| && PassesOver(readings, i)
    ensures readings[i].rc != 0 || readings[i].page.kind == PCIE_PORT || i == |readings| - 1
  {
    i := 0;
    while readings[i].rc == 0 && readings[i].page.kind != PCIE_PORT && i < |readings| - 1
      invariant i < |readings| && PassesOver(readings, i)
      decreases |readings| - i
    {
      i := i + 1;
    }
  }

  lemma PortErrorExactly(readings: seq<PortRead>)
    requires readings != []
    ensures SelectPort(readings) == None <==>
              exists i: nat :: i < |readings| && PassesOver(readings, i) && readings[i].rc != 0
  {
    var i := SelectionIsDecided(readings);
    SelectPortSelects(readings, i);
    forall k: nat | k < |readings| && PassesOver(readings, k) && readings[k].rc != 0
      ensures SelectPort(readings) == None
    {
      SelectPortSelects(readings, k);
    }
  }

  /** The loop over ports 0 to NUMP. */
  method ReadPorts(nump: byte, readings: seq<PortRead>) returns (selected: Option<PortPage>)
    requires |readings| == nump as int + 1
    ensures selected == SelectPort(readings)
  {
    var i := 0;
    while i <= nump as int
      invariant 0 <= i <= |readings|
      invariant PassesOver(readings, i)
    {
      if readings[i].rc != 0 {
        SelectPortSelects(readings, i);
        return None;
      }
      if readings[i].page.kind == PCIE_PORT {
        SelectPortSelects(readings, i);
        return Some(readings[i].page);
      }
      i := i + 1;
    }
    SelectPortSelects(readings, |readings| - 1);
    return Some(readings[|readings| - 1].page);
  }

  // ------------------------------------------------------------ log pages

  /**
   The return code that decides how a log request is completed.  The reservation and
   sanitize cases keep theirs in an inner variable, so the outer one stays zero.
   */
  function EffectiveRc(lid: LogId, lsp: TelemetryLsp, rc: int): int {
    match lid
    case Reservation => 0
    case SanitizeLog => 0
    case UnknownLog => -1
    case TelemetryHost => if lsp == OtherLsp then -1 else rc
    case _ => rc
  }

  /** The error number that goes with a negative effective return code. */
  function EffectiveErrno(lid: LogId, lsp: TelemetryLsp, errno: nat): nat {
    if lid == UnknownLog || (lid == TelemetryHost && lsp == OtherLsp) then EINVAL else errno
  }

  /** The buffer as it is handed on: it starts zero-filled and only a successful read fills it. */
  function LogBuffer(lid: LogId, a: Answer): Payload {
    match lid
    case SmartLog => Smart(if a.rc == 0 then a.warning else 0)
    case SanitizeLog => SanitizeStatus(if a.rc == 0 then a.log else ZERO_SANITIZE_PAGE)
    case _ => Raw
  }

  /** What a successful command brings. */
  function Data(c: Command, a: Answer): Payload {
    match c
    case ScanControllers => Controllers(a.controllers)
    case Identify => Identity(a.sanicap)
    case HealthPoll => Health(a.health)
    case GetLog(lid, lsp) => LogBuffer(lid, a)
    case _ => Raw
  }

  /** What a callback is handed together with a system error number. */
  function NoResult(c: Command): Payload {
    match c
    case ScanControllers => Controllers([])
    case Identify => NoData
    case PortInformation => NoData
    case HealthPoll => NoData
    case GetLog(_, _) => NoData
    case _ => Raw
  }

  /** The completion with a system error number: the number zero makes an error code that says "no error". */
  function WithErrno(c: Command, errno: nat): Reply {
    if errno == 0 then Good(NoResult(c)) else Bad(Errno(errno))
  }

  /** How an operation with the usual three-way check of its return code completes. */
  function Checked(c: Command, rc: int, errno: nat, data: Payload): seq<Reply> {
    if rc < 0 then [WithErrno(c, errno)] else if rc > 0 then [Bad(BadMessage)] else [Good(data)]
  }

  /** The completions that one executed command posts to the main loop, oldest first. */
  function Completions(c: Command, a: Answer): seq<Reply> {
    match c
    case GetLog(lid, lsp) =>
      var rc := EffectiveRc(lid, lsp, a.rc);
      if rc > 0 then [Bad(BadMessage), Good(Data(c, a))]
      else Checked(c, rc, EffectiveErrno(lid, lsp, a.errno), Data(c, a))
    case PortInformation =>
      if a.rc != 0 then Checked(c, a.rc, a.errno, Raw)
      else (match SelectPort(a.ports) case None => [Bad(BadMessage)] case Some(p) => [Good(Port(p))])
    case Transfer => if a.rc < 0 then [WithErrno(c, a.errno)] else [Good(Raw)]
    case SecuritySend => [WithErrno(c, a.errno)]
    case SecurityReceive =>
      if a.excess then [Bad(ProtocolError)] else [WithErrno(c, a.errno)]
    case _ => Checked(c, a.rc, a.errno, Data(c, a))
  }

  /** The same with the early return that the log operation was meant to have. */
  function IntendedCompletions(c: Command, a: Answer): seq<Reply> {
    if c.GetLog? then
      Checked(c, EffectiveRc(c.lid, c.lsp, a.rc), EffectiveErrno(c.lid, c.lsp, a.errno), Data(c, a))
    else Completions(c, a)
  }

  /** The logs that are refused without asking the drive. */
  predicate Refused(lid: LogId, lsp: TelemetryLsp) {
    lid == UnknownLog || (lid == TelemetryHost && lsp == OtherLsp)
  }

  /** The two logs whose return code is lost. */
  predicate HidesCode(lid: LogId) {
    lid == Reservation || lid == SanitizeLog
  }

  predicate CompletesTwice(c: Command, a: Answer) {
    c.GetLog? && a.rc > 0 && !Refused(c.lid, c.lsp) && !HidesCode(c.lid)
  }

  lemma IntendedOnce(c: Command, a: Answer)
    ensures |IntendedCompletions(c, a)| == 1
  {
  }

  /** One completion on every path, except that a log request with a positive code posts an error and then a success. */
  lemma OnceExactly(c: Command, a: Answer)
    ensures if CompletesTwice(c, a)
            then Completions(c, a) == IntendedCompletions(c, a) + [Good(Data(c, a))]
                 && |Completions(c, a)| == 2 && Completions(c, a)[0] == Bad(BadMessage)
            else Completions(c, a) == IntendedCompletions(c, a) && |Completions(c, a)| == 1
  {
  }

  /** A failed read of the sanitize log is delivered as a page that says "never sanitized". */
  lemma FailedSanitizeReadLooksGood(a: Answer)
    requires a.rc != 0
    ensures Completions(READ_SANITIZE, a) == [Good(SanitizeStatus(ZERO_SANITIZE_PAGE))]
  {
  }

  /** A failed call that says so without an error number. */
  predicate Silent(rc: int, errno: nat) {
    rc < 0 && errno == 0
  }

  /**
   A log request is reported as a failure exactly if it is refused, or the read failed, the log is not one of the two
   that hide their code, and the failure is not a negative code with error number zero; and as nothing but a failure
   exactly if it is refused, or the code is negative, is not hidden and comes with an error number.
   */
  lemma FailureReportedExactly(lid: LogId, lsp: TelemetryLsp, a: Answer)
    ensures (exists r :: r in Completions(GetLog(lid, lsp), a) && r.Bad?) <==>
              Refused(lid, lsp) || (a.rc != 0 && !HidesCode(lid) && !Silent(a.rc, a.errno))
    ensures (forall r :: r in Completions(GetLog(lid, lsp), a) ==> r.Bad?) <==>
              Refused(lid, lsp) || (a.rc < 0 && a.errno != 0 && !HidesCode(lid))
  {
    var rs := Completions(GetLog(lid, lsp), a);
    assert rs[0] in rs && rs[|rs| - 1] in rs;
  }

  /** A failure of the other checked operations is reported exactly unless it comes without an error number. */
  lemma OtherFailuresReportedExactly(c: Command, a: Answer)
    requires c.ScanControllers? || c.Identify? || c.HealthPoll? || c.Sanitize? || c.PortInformation?
    requires a.rc != 0
    ensures |Completions(c, a)| == 1
    ensures Completions(c, a)[0].Bad? <==> !Silent(a.rc, a.errno)
    ensures Silent(a.rc, a.errno) ==> Completions(c, a)[0] == Good(NoResult(c))
  {
  }

  /** A read of the ports that ends before a port is settled on. */
  predicate PortFails(a: Answer) {
    exists i: nat :: i < |a.ports| && PassesOver(a.ports, i) && a.ports[i].rc != 0
  }

  /**
   What an error says: the system's number exactly for a negative code, 22 for a refused log, and "bad message" for a
   positive code or a failed port read; the security operations never look at their code.
   */
  lemma ErrorSays(c: Command, a: Answer, r: Reply)
    requires r in Completions(c, a) && r.Bad?
    ensures match c
            case SecuritySend => r.error == Errno(a.errno) && a.errno != 0
            case SecurityReceive =>
              if a.excess then r.error == ProtocolError else r.error == Errno(a.errno) && a.errno != 0
            case GetLog(lid, lsp) =>
              if Refused(lid, lsp) then r.error == Errno(22)
              else if a.rc < 0 then r.error == Errno(a.errno) else r.error == BadMessage && a.rc > 0
            case PortInformation =>
              if a.rc < 0 then r.error == Errno(a.errno) else r.error == BadMessage && (a.rc > 0 || PortFails(a))
            case Transfer => r.error == Errno(a.errno) && a.rc < 0
            case _ => if a.rc < 0 then r.error == Errno(a.errno) else r.error == BadMessage && a.rc > 0
  {
    PortErrorExactly(a.ports);
    hide SelectPort, PassesOver, Data;
  }

  /** The drive has done what it was asked: by its code, by the error number, or by the ports read. */
  predicate Succeeded(c: Command, a: Answer) {
    match c
    case SecuritySend => a.errno == 0
    case SecurityReceive => !a.excess && a.errno == 0
    case Transfer => a.rc >= 0
    case PortInformation => a.rc == 0 && !PortFails(a)
    case GetLog(lid, lsp) => !Refused(lid, lsp) && a.rc == 0
    case _ => a.rc == 0
  }

  /** The page of the port settled on: the first PCIe port, or the last port if there is none. */
  predicate IsPage(a: Answer, p: PortPage) {
    exists i: nat ::
      && i < |a.ports| && PassesOver(a.ports, i) && (a.ports[i].page.kind == 1 || i == |a.ports| - 1)
      && a.ports[i].rc == 0 && a.ports[i].page == p
  }

  /** A success comes back once, and with exactly what the drive answered. */
  lemma SuccessDelivers(c: Command, a: Answer)
    requires Succeeded(c, a)
    ensures |Completions(c, a)| == 1 && Completions(c, a)[0].Good?
    ensures var data := Completions(c, a)[0].payload;
            match c
            case ScanControllers => data == Controllers(a.controllers)
            case Identify => data == Identity(a.sanicap)
            case PortInformation => data.Port? && IsPage(a, data.port)
            case HealthPoll => data == Health(a.health)
            case GetLog(SmartLog, _) => data == Smart(a.warning)
            case GetLog(SanitizeLog, _) => data == SanitizeStatus(a.log)
            case _ => data == Raw
  {
    if c == PortInformation {
      var i := SelectionIsDecided(a.ports);
      SelectPortSelects(a.ports, i);
    }
    hide SelectPort, PassesOver;
  }

  predicate IsSecurity(c: Command) {
    c.SecuritySend? || c.SecurityReceive?
  }

  /** The endpoint object: it posts requests to the worker and completions to the main loop's queue. */
  class Endpoint {
    const open: bool           // the MCTP endpoint could be opened
    var workerQueue: seq<Command>
    var io: seq<Reply>

    constructor (reachable: bool)
      ensures io == [] && workerQueue == [] && open == reachable
    {
      open := reachable;
      io, workerQueue := [], [];
    }

    /** The front of every operation; only the security operations go to the worker without looking. */
    method Request(c: Command)
      modifies this
      ensures var posted := open || IsSecurity(c);
              && workerQueue == old(workerQueue) + (if posted then [c] else [])
              && io == old(io) + (if posted then [] else [Bad(NoSuchDevice)])
    {
      if !IsSecurity(c) && !open {
        Post(Bad(NoSuchDevice));
        return;
      }
      workerQueue := workerQueue + [c];
    }

    method Post(r: Reply)
      modifies this`io
      ensures io == old(io) + [r]
    {
      io := io + [r];
    }

    /** Posts the callback with a system error number; it tests the error code, and zero is none. */
    method PostErrno(c: Command, errno: nat)
      modifies this`io
      ensures io == old(io) + [WithErrno(c, errno)]
    {
      if errno == 0 {
        Post(Good(NoResult(c)));
      } else {
        Post(Bad(Errno(errno)));
      }
    }

    /** Scan, identify, health poll and sanitize: negative, positive and zero return code. */
    method RunChecked(c: Command, a: Answer)
      requires c.ScanControllers? || c.Identify? || c.HealthPoll? || c.Sanitize?
      modifies this`io
      ensures io == old(io) + Completions(c, a)
    {
      if a.rc < 0 {
        PostErrno(c, a.errno);
        return;
      } else if a.rc > 0 {
        Post(Bad(BadMessage));
        return;
      }
      Post(Good(Data(c, a)));
    }

    method RunPortInformation(nump: byte, a: Answer)
      requires |a.ports| == nump as int + 1
      modifies this`io
      ensures io == old(io) + Completions(PortInformation, a)
    {
      if a.rc < 0 {
        PostErrno(PortInformation, a.errno);
        return;
      } else if a.rc > 0 {
        Post(Bad(BadMessage));
        return;
      }
      var selected := ReadPorts(nump, a.ports);
      match selected {
        case None => Post(Bad(BadMessage));
        case Some(page) => Post(Good(Port(page)));
      }
    }

    method RunGetLog(lid: LogId, lsp: TelemetryLsp, a: Answer)
      modifies this`io
      ensures io == old(io) + Completions(GetLog(lid, lsp), a)
    {
      var rc := 0;
      var errno := a.errno;
      var data := Raw;
      match lid {
        case SmartLog =>
          data := Smart(0);
          rc := a.rc;
          if rc == 0 { data := Smart(a.warning); }
        case TelemetryHost =>
          if lsp == OtherLsp {
            rc, errno := -1, EINVAL;
          } else {
            rc := a.rc;
          }
        case Reservation =>
        case SanitizeLog =>
          data := SanitizeStatus(ZERO_SANITIZE_PAGE);
          var innerRc := a.rc;
          if innerRc == 0 { data := SanitizeStatus(a.log); }
        case UnknownLog =>
          rc, errno := -1, EINVAL;
        case _ =>
          rc := a.rc;
      }
      if rc < 0 {
        PostErrno(GetLog(lid, lsp), errno);
        return;
      } else if rc > 0 {
        Post(Bad(BadMessage));
      }
      Post(Good(data));
    }

    method RunTransfer(a: Answer)
      modifies this`io
      ensures io == old(io) + Completions(Transfer, a)
    {
      if a.rc < 0 {
        PostErrno(Transfer, a.errno);
        return;
      }
      Post(Good(Raw));
    }

    method RunSecuritySend(a: Answer)
      modifies this`io
      ensures io == old(io) + Completions(SecuritySend, a)
    {
      PostErrno(SecuritySend, a.errno);
    }

    method RunSecurityReceive(a: Answer)
      modifies this`io
      ensures io == old(io) + Completions(SecurityReceive, a)
    {
      if a.excess {
        Post(Bad(ProtocolError));
        return;
      }
      PostErrno(SecurityReceive, a.errno);
    }
  }
}
