/** The dispatch of one control request: the locked order of its checks, and its one completion. */
module ControlDispatch {
  import opened RuleTypes

  const IOCTL_VERSION: u16 := 1
  const FUNCTION_BASE: nat := 0x800
  const CMD_MAX: nat := 11
  const HEADER_SIZE: nat := 24

  /** Statuses of the checks; Foreign is one that WDF returned, FromStore a command handler's. */
  datatype NtStatus =
    | DeviceNotReady | InvalidDeviceRequest | BufferTooSmall | BadParameter | RevisionMismatch | AccessDenied
    | Foreign(code: int) | FromStore(answer: Status)

  datatype Header = Header(size: u32, version: u16, command: u16, flags: u32)

  /** A retrieved request and what the foreign calls answer about it. `input` and `output` are the
      statuses of retrieving the buffers, None for success. */
  datatype Arrival = Arrival(
    gateOpen: bool, active: bool,
    ioctl: u32, parameters: u32,          // the callback's code, and the code in the request's parameters
    input: Option<NtStatus>, inLen: nat, hdr: Header,
    privileged: bool,                     // the file has a context, and it was created privileged
    outLen: nat, output: Option<NtStatus>, hasBuffer: bool,
    handler: NtStatus)                    // what the command's handler answers

  /** skIsModifyCommand: add, update, delete, replace, clear, default policy. */
  predicate IsModify(command: nat) { command in {2, 3, 4, 6, 7, 8} }

  /** `(ioControlCode >> 2) & 0xFFF` */
  function FunctionOf(ioctl: u32): nat { ioctl / 4 % 0x1000 }

  /** The function number of a control code: device type, access, function and method in their fields. */
  lemma FunctionOfCode(device: nat, access: nat, func: nat, transfer: nat)
    requires device < 0x1_0000 && access < 4 && func < 0x1000 && transfer < 4
    ensures FunctionOf(device * 0x1_0000 + access * 0x4000 + func * 4 + transfer) == func
  {
    var code := device * 0x1_0000 + access * 0x4000 + func * 4 + transfer;
    assert code / 4 == device * 0x4000 + access * 0x1000 + func;
    assert code / 4 == 0x1000 * (device * 4 + access) + func;
  }

  datatype Check = Check(refuses: bool, status: NtStatus)

  /** The checks in the order the header of the control plane fixes. */
  function Checks(c: Arrival): seq<Check> {
    [Check(!c.gateOpen || !c.active, DeviceNotReady),
     Check(c.parameters != c.ioctl, InvalidDeviceRequest),
     Check(c.input.Some?, if c.input.Some? then c.input.value else BufferTooSmall),
     Check(c.inLen < HEADER_SIZE || c.inLen > 0xFFFF_FFFF, BufferTooSmall),
     Check(c.hdr.size != c.inLen, BadParameter),
     Check(c.hdr.version != IOCTL_VERSION, RevisionMismatch),
     Check(c.hdr.flags != 0, BadParameter),
     Check(c.hdr.command >= CMD_MAX, InvalidDeviceRequest),
     Check(FunctionOf(c.ioctl) != FUNCTION_BASE + c.hdr.command, InvalidDeviceRequest),
     Check(IsModify(c.hdr.command) && !c.privileged, AccessDenied),
     Check(c.outLen > 0 && (c.output.Some? || !c.hasBuffer), if c.output.Some? then c.output.value else BadParameter)]
  }

  /** Check i refuses and none before it does. */
  predicate FirstRefusal(checks: seq<Check>, i: nat) {
    i < |checks| && checks[i].refuses && forall j :: 0 <= j < i ==> !checks[j].refuses
  }

  predicate NoneRefuses(checks: seq<Check>) { forall i :: 0 <= i < |checks| ==> !checks[i].refuses }

  /** A WDF request: how often it was completed, and with what. */
  class Request {
    var completions: nat
    var status: NtStatus

    constructor ()
      ensures completions == 0
    {
      completions, status := 0, DeviceNotReady;
    }

    method Complete(st: NtStatus)
      modifies this
      ensures completions == old(completions) + 1 && status == st
    {
      completions := completions + 1;
      status := st;
    }
  }

  /** SkIoctlEvtDeviceControl. On every path the request is completed exactly once: with the first
      refusal, or with the handler's answer after the handler ran. */
  method Dispatch(r: Request, c: Arrival) returns (ran: bool)
    modifies r
    ensures r.completions == old(r.completions) + 1
    ensures ran <==> NoneRefuses(Checks(c))
    ensures ran ==> r.status == c.handler && (IsModify(c.hdr.command) ==> c.privileged)
    ensures !ran ==> exists i: nat :: FirstRefusal(Checks(c), i) && r.status == Checks(c)[i].status
  {
    ghost var checks := Checks(c);
    ran := false;
    if !c.gateOpen || !c.active {
      assert FirstRefusal(checks, 0);
      r.Complete(DeviceNotReady);
      return;
    }
    if c.parameters != c.ioctl {
      assert FirstRefusal(checks, 1);
      r.Complete(InvalidDeviceRequest);
      return;
    }
    if c.input.Some? {
      assert FirstRefusal(checks, 2);
      r.Complete(c.input.value);
      return;
    }
    if c.inLen < HEADER_SIZE || c.inLen > 0xFFFF_FFFF {
      assert FirstRefusal(checks, 3);
      r.Complete(BufferTooSmall);
      return;
    }
    if c.hdr.size != c.inLen {
      assert FirstRefusal(checks, 4);
      r.Complete(BadParameter);
      return;
    }
    ran := DispatchHeader(r, c);
  }

  /** The checks of the header and what follows. */
  method DispatchHeader(r: Request, c: Arrival) returns (ran: bool)
    requires forall j :: 0 <= j < 5 ==> !Checks(c)[j].refuses
    modifies r
    ensures r.completions == old(r.completions) + 1
    ensures ran <==> NoneRefuses(Checks(c))
    ensures ran ==> r.status == c.handler && (IsModify(c.hdr.command) ==> c.privileged)
    ensures !ran ==> exists i: nat :: FirstRefusal(Checks(c), i) && r.status == Checks(c)[i].status
  {
    ghost var checks := Checks(c);
    ran := false;
    if c.hdr.version != IOCTL_VERSION {
      assert FirstRefusal(checks, 5);
      r.Complete(RevisionMismatch);
      return;
    }
    if c.hdr.flags != 0 {
      assert FirstRefusal(checks, 6);
      r.Complete(BadParameter);
      return;
    }
    if c.hdr.command >= CMD_MAX {
      assert FirstRefusal(checks, 7);
      r.Complete(InvalidDeviceRequest);
      return;
    }
    if FunctionOf(c.ioctl) != FUNCTION_BASE + c.hdr.command {
      assert FirstRefusal(checks, 8);
      r.Complete(InvalidDeviceRequest);
      return;
    }
    if IsModify(c.hdr.command) && !c.privileged {
      assert FirstRefusal(checks, 9);
      r.Complete(AccessDenied);
      return;
    }
    if c.outLen > 0 && (c.output.Some? || !c.hasBuffer) {
      assert FirstRefusal(checks, 10);
      r.Complete(if c.output.Some? then c.output.value else BadParameter);
      return;
    }
    ran := true;
    r.Complete(c.handler);
  }

  /** One retrieved request in the consumer loop: refused because of the stop, or dispatched; it is
      completed exactly once either way. */
  method Serve(r: Request, stop: bool, c: Arrival)
    modifies r
    ensures r.completions == old(r.completions) + 1
    ensures stop ==> r.status == DeviceNotReady
  {
    if stop {
      r.Complete(DeviceNotReady);
    } else {
      var ran := Dispatch(r, c);
    }
  }
}
