/**
 * KDUControlProcess and KDUUnprotectProcess: open the target process, find its
 * EPROCESS object, locate the PS_PROTECTION field for the running build, read
 * the four bytes there, overwrite Signer, Type and Audit in the buffer, and
 * write the four bytes back; the process handle is closed on every path after
 * a successful open.
 *
 * Control is the protocol as a function of the answers the system gives;
 * ControlProcess runs it step by step against a Host.System and is proved to
 * do exactly what Control says. The lemmas state the protocol's guarantees
 * about Control.
 */
module Mutator {

  import opened Base
  import opened Bits
  import opened Codec
  import opened Offsets
  import opened Kernel
  import opened Host

  /** The part of KDU_CONTEXT the routine reads, and the header definitions it is compiled against. */
  datatype Context = Context(ntBuildNumber: u32, values: Enumerations, layout: Layout, table: BuildTable)

  /** What the system answers to the one call of each kind a run makes. */
  datatype ControlAnswers = ControlAnswers(
    openGranted: bool,     // NtOpenProcess succeeds
    processObject: Addr,   // what supQueryObjectFromHandle reports (0: not found)
    readGranted: bool,     // the provider is able to read
    writeGranted: bool,    // the provider is able to write
    writeLeftAs: seq<byte>) // what a failed write leaves in the four bytes

  datatype ControlOutcome = ControlOutcome(ok: bool, kernel: Memory, events: seq<Event>, nextHandle: Handle)

  /** EPROCESS_TO_PROTECTION: the object address plus the offset, in ULONG_PTR arithmetic. */
  function ProtectionAddress(processObject: Addr, offset: u64): Addr {
    (processObject + offset) % 0x1_0000_0000_0000_0000
  }

  /** The buffer after the three bit-field assignments: Signer and Type as requested, Audit cleared. */
  function WithProtection(l: Layout, buffer: Word, signer: u32, ptype: u32): Word
    requires LayoutOk(l)
  {
    Overlay(l, buffer, Protection(signer, ptype, 0))
  }

  /** The steps of KDUControlProcess, starting from kernel memory `kernel` with `h` the next handle. */
  function Control(ctx: Context, kernel: Memory, h: Handle, pid: Pid, signer: u32, ptype: u32,
                   ans: ControlAnswers): ControlOutcome
    requires LayoutOk(ctx.layout)
  {
    if !ans.openGranted then
      ControlOutcome(false, kernel, [OpenProcess(pid, None)], h)
    else
      var located := [OpenProcess(pid, Some(h)), QueryObject(h, ans.processObject)];
      var offset := ProtectionOffset(ctx.table, ctx.ntBuildNumber);
      if ans.processObject == 0 then
        ControlOutcome(false, kernel, located + [Close(h)], h + 1)
      else if offset == 0 then
        ControlOutcome(false, kernel, located + [Close(h)], h + 1)
      else
        var va := ProtectionAddress(ans.processObject, offset);
        var w := Rewrite(ctx.layout, kernel, va, signer, ptype, ans);
        ControlOutcome(w.ok, w.kernel, located + w.events + [Close(h)], h + 1)
  }

  datatype RewriteOutcome = RewriteOutcome(ok: bool, kernel: Memory, events: seq<Event>)

  /** The read of the four bytes at `va`, the three bit-field assignments and the write back. */
  function Rewrite(l: Layout, kernel: Memory, va: Addr, signer: u32, ptype: u32,
                   ans: ControlAnswers): RewriteOutcome
    requires LayoutOk(l)
  {
    if !(ans.readGranted && Mapped(kernel, va, 4)) then
      RewriteOutcome(false, kernel, [ReadKernel(va, 4, false)])
    else
      var bytes := BytesOf(WithProtection(l, WordOf(ReadBytes(kernel, va, 4)), signer, ptype));
      var ok := ans.writeGranted && Mapped(kernel, va, 4);
      RewriteOutcome(ok, if ok then WriteBytes(kernel, va, bytes) else FailedWrite(kernel, va, 4, ans.writeLeftAs),
                     [ReadKernel(va, 4, true), WriteKernel(va, bytes, ok)])
  }

  method RewriteProtection(l: Layout, sys: System, va: Addr, signer: u32, ptype: u32,
                           ans: ControlAnswers) returns (ok: bool)
    requires LayoutOk(l)
    modifies sys`kernel, sys`log
    ensures var w := Rewrite(l, old(sys.kernel), va, signer, ptype, ans);
      ok == w.ok && sys.kernel == w.kernel && sys.log == old(sys.log) + w.events
  {
    ok := false;
    var read, bytes := sys.ReadKernelVM(va, 4, ans.readGranted);
    if read {
      var buffer := WordOf(bytes);
      buffer := SetField(buffer, l.signer, signer);
      buffer := SetField(buffer, l.ptype, ptype);
      buffer := SetField(buffer, l.audit, 0);
      ok := sys.WriteKernelVM(va, BytesOf(buffer), ans.writeGranted, ans.writeLeftAs);
    }
  }

  /** KDUControlProcess. */
  method ControlProcess(ctx: Context, sys: System, pid: Pid, signer: u32, ptype: u32, ans: ControlAnswers)
    returns (ok: bool)
    requires LayoutOk(ctx.layout) && sys.Valid()
    modifies sys
    ensures sys.Valid() && sys.handles == old(sys.handles)
    ensures var r := Control(ctx, old(sys.kernel), old(sys.nextHandle), pid, signer, ptype, ans);
      && ok == r.ok
      && sys.kernel == r.kernel
      && sys.log == old(sys.log) + r.events
      && sys.nextHandle == r.nextHandle
  {
    ok := false;
    var isOpen, hProcess := sys.NtOpenProcess(pid, ans.openGranted);
    if isOpen {
      var processObject := sys.QueryObjectFromHandle(hProcess, ans.processObject);
      if processObject != 0 {
        var offset := ProtectionOffset(ctx.table, ctx.ntBuildNumber);
        if offset != 0 {
          var va := ProtectionAddress(processObject, offset);
          ok := RewriteProtection(ctx.layout, sys, va, signer, ptype, ans);
        }
      }
      sys.CloseHandle(hProcess);
    }
  }

  /** KDUUnprotectProcess: KDUControlProcess with PsProtectedSignerNone and PsProtectedTypeNone. */
  method UnprotectProcess(ctx: Context, sys: System, pid: Pid, ans: ControlAnswers) returns (ok: bool)
    requires LayoutOk(ctx.layout) && sys.Valid()
    modifies sys
    ensures sys.Valid() && sys.handles == old(sys.handles)
    ensures var r := Control(ctx, old(sys.kernel), old(sys.nextHandle), pid,
                             ctx.values.signerValue(SignerNone), ctx.values.typeValue(TypeNone), ans);
      && ok == r.ok
      && sys.kernel == r.kernel
      && sys.log == old(sys.log) + r.events
      && sys.nextHandle == r.nextHandle
  {
    ok := ControlProcess(ctx, sys, pid, ctx.values.signerValue(SignerNone), ctx.values.typeValue(TypeNone), ans);
  }

  // ---------------------------------------------------------------------------
  // What the protocol guarantees

  predicate Touches(e: Event) {
    e.ReadKernel? || e.WriteKernel?
  }

  /** A build with no case in the switch: the routine fails and never reads or writes kernel memory. */
  lemma {:induction false} UnsupportedBuildNoAccess(ctx: Context, kernel: Memory, h: Handle, pid: Pid,
                                                    signer: u32, ptype: u32, ans: ControlAnswers)
    requires LayoutOk(ctx.layout)
    requires forall r :: ctx.ntBuildNumber != ctx.table.buildNumber(r)
    ensures var r := Control(ctx, kernel, h, pid, signer, ptype, ans);
      !r.ok && r.kernel == kernel && forall i :: 0 <= i < |r.events| ==> !Touches(r.events[i])
  {
    assert ProtectionOffset(ctx.table, ctx.ntBuildNumber) == 0;
    UnlocatedNoAccess(ctx, kernel, h, pid, signer, ptype, ans);
  }

  /** No process object, or no offset: the routine fails and never reads or writes kernel memory. */
  lemma {:induction false} UnlocatedNoAccess(ctx: Context, kernel: Memory, h: Handle, pid: Pid,
                                             signer: u32, ptype: u32, ans: ControlAnswers)
    requires LayoutOk(ctx.layout)
    requires ans.processObject == 0 || ProtectionOffset(ctx.table, ctx.ntBuildNumber) == 0
    ensures var r := Control(ctx, kernel, h, pid, signer, ptype, ans);
      !r.ok && r.kernel == kernel && forall i :: 0 <= i < |r.events| ==> !Touches(r.events[i])
  {
  }

  /** A read that fails is followed by no write; the routine fails and kernel memory is unchanged. */
  lemma {:induction false} FailedReadNoWrite(ctx: Context, kernel: Memory, h: Handle, pid: Pid,
                                             signer: u32, ptype: u32, ans: ControlAnswers, i: nat)
    requires LayoutOk(ctx.layout)
    requires var r := Control(ctx, kernel, h, pid, signer, ptype, ans);
      i < |r.events| && r.events[i].ReadKernel? && !r.events[i].ok
    ensures var r := Control(ctx, kernel, h, pid, signer, ptype, ans);
      && !r.ok && r.kernel == kernel
      && forall j :: 0 <= j < |r.events| ==> !r.events[j].WriteKernel?
  {
  }

  /**
   * A read that succeeds is followed by a write to the same address of the four
   * bytes read with Signer and Type replaced and Audit cleared; no other bit of
   * the buffer changes.
   */
  lemma RewriteIsReadModifyWrite(l: Layout, kernel: Memory, va: Addr, signer: u32, ptype: u32,
                                 ans: ControlAnswers)
    requires LayoutOk(l) && ans.readGranted && Mapped(kernel, va, 4)
    ensures var w := Rewrite(l, kernel, va, signer, ptype, ans);
      var before := WordOf(ReadBytes(kernel, va, 4));
      && |w.events| == 2 && w.events[0] == ReadKernel(va, 4, true)
      && w.events[1].WriteKernel? && w.events[1].address == va && |w.events[1].bytes| == 4
      && Decode(l, WordOf(w.events[1].bytes)) == Truncate(l, Protection(signer, ptype, 0))
      && forall k :: 0 <= k < 32 && !InFields(l, k) ==> WordOf(w.events[1].bytes)[k] == before[k]
  {
    var before := WordOf(ReadBytes(kernel, va, 4));
    OverlayKeepsOtherBits(l, before, Protection(signer, ptype, 0));
    DecodeOverlay(l, before, Protection(signer, ptype, 0));
    WordOfBytesOf(WithProtection(l, before, signer, ptype));
  }

  /**
   * A write event in a run of KDUControlProcess goes to the address just read,
   * and it writes the four bytes read with Signer and Type replaced and Audit
   * cleared; no other bit of the buffer changes.
   */
  lemma {:induction false} WriteIsReadModifyWrite(ctx: Context, kernel: Memory, h: Handle, pid: Pid,
                                                  signer: u32, ptype: u32, ans: ControlAnswers, i: nat)
    requires LayoutOk(ctx.layout)
    requires var r := Control(ctx, kernel, h, pid, signer, ptype, ans);
      i < |r.events| && r.events[i].WriteKernel?
    ensures var r := Control(ctx, kernel, h, pid, signer, ptype, ans);
      var e := r.events[i];
      && 0 < i && r.events[i - 1] == ReadKernel(e.address, 4, true)
      && Mapped(kernel, e.address, 4)
      && |e.bytes| == 4
      && var before, after := WordOf(ReadBytes(kernel, e.address, 4)), WordOf(e.bytes);
      && Decode(ctx.layout, after) == Truncate(ctx.layout, Protection(signer, ptype, 0))
      && forall k :: 0 <= k < 32 && !InFields(ctx.layout, k) ==> after[k] == before[k]
  {
    var va := ProtectionAddress(ans.processObject, ProtectionOffset(ctx.table, ctx.ntBuildNumber));
    var w := Rewrite(ctx.layout, kernel, va, signer, ptype, ans);
    assert ans.openGranted && Control(ctx, kernel, h, pid, signer, ptype, ans).events
        == [OpenProcess(pid, Some(h)), QueryObject(h, ans.processObject)] + w.events + [Close(h)];
    assert ans.readGranted && Mapped(kernel, va, 4);
    RewriteIsReadModifyWrite(ctx.layout, kernel, va, signer, ptype, ans);
    assert i == 3;
  }

  /** The read-modify-write succeeds exactly when its write callback reports success. */
  lemma RewriteResultIsWriteOutcome(l: Layout, kernel: Memory, va: Addr, signer: u32, ptype: u32,
                                    ans: ControlAnswers)
    requires LayoutOk(l)
    ensures var w := Rewrite(l, kernel, va, signer, ptype, ans);
      w.ok <==> exists i :: 0 <= i < |w.events| && w.events[i].WriteKernel? && w.events[i].ok
  {
    var w := Rewrite(l, kernel, va, signer, ptype, ans);
    if w.ok {
      assert w.events[1].WriteKernel? && w.events[1].ok;
    }
  }

  /** The result of KDUControlProcess is TRUE exactly when the write callback reports success. */
  lemma {:induction false} ResultIsWriteOutcome(ctx: Context, kernel: Memory, h: Handle, pid: Pid,
                                                signer: u32, ptype: u32, ans: ControlAnswers)
    requires LayoutOk(ctx.layout)
    ensures var r := Control(ctx, kernel, h, pid, signer, ptype, ans);
      r.ok <==> exists i :: 0 <= i < |r.events| && r.events[i].WriteKernel? && r.events[i].ok
  {
    var r := Control(ctx, kernel, h, pid, signer, ptype, ans);
    var offset := ProtectionOffset(ctx.table, ctx.ntBuildNumber);
    if ans.openGranted && ans.processObject != 0 && offset != 0 {
      var va := ProtectionAddress(ans.processObject, offset);
      var w := Rewrite(ctx.layout, kernel, va, signer, ptype, ans);
      var prefix := [OpenProcess(pid, Some(h)), QueryObject(h, ans.processObject)];
      assert r.events == prefix + w.events + [Close(h)];
      RewriteResultIsWriteOutcome(ctx.layout, kernel, va, signer, ptype, ans);
      if r.ok {
        var j :| 0 <= j < |w.events| && w.events[j].WriteKernel? && w.events[j].ok;
        assert r.events[j + 2] == w.events[j];
      } else {
        forall i | 0 <= i < |r.events| ensures !(r.events[i].WriteKernel? && r.events[i].ok) {
          if 2 <= i < |r.events| - 1 {
            assert r.events[i] == w.events[i - 2];
          }
        }
      }
    } else {
      assert !r.ok && forall i :: 0 <= i < |r.events| ==> !r.events[i].WriteKernel?;
    }
  }

  /**
   * After a successful open the handle is closed exactly once, as the last call,
   * after any read or write; after a failed open nothing else is called.
   */
  lemma {:induction false} HandleClosedOnce(ctx: Context, kernel: Memory, h: Handle, pid: Pid,
                                            signer: u32, ptype: u32, ans: ControlAnswers)
    requires LayoutOk(ctx.layout)
    ensures var r := Control(ctx, kernel, h, pid, signer, ptype, ans);
      && (!ans.openGranted ==> r.events == [OpenProcess(pid, None)])
      && (ans.openGranted ==>
            && r.events[0] == OpenProcess(pid, Some(h))
            && r.events[|r.events| - 1] == Close(h)
            && forall i :: 0 <= i < |r.events| - 1 ==> !r.events[i].Close?)
  {
  }

  /**
   * Only the four bytes at `va` may change. When no write was made kernel
   * memory is unchanged; a failed write may have left those four bytes partly
   * written. After a successful write a fresh read of the field decodes to the
   * requested Signer and Type (cut to their widths) with Audit 0.
   */
  lemma RewriteReadsBack(l: Layout, kernel: Memory, va: Addr, signer: u32, ptype: u32, ans: ControlAnswers)
    requires LayoutOk(l)
    ensures var w := Rewrite(l, kernel, va, signer, ptype, ans);
      && w.kernel.Keys == kernel.Keys
      && (forall x :: x in kernel && !InRange(va, 4, x) ==> w.kernel[x] == kernel[x])
      && ((forall i :: 0 <= i < |w.events| ==> !w.events[i].WriteKernel?) ==> w.kernel == kernel)
      && (w.ok ==>
            && Mapped(w.kernel, va, 4)
            && Decode(l, WordOf(ReadBytes(w.kernel, va, 4)))
               == Protection(LowBits(signer, l.signer.width), LowBits(ptype, l.ptype.width), 0))
  {
    var w := Rewrite(l, kernel, va, signer, ptype, ans);
    if ans.readGranted && Mapped(kernel, va, 4) {
      assert w.events[1].WriteKernel?;
      if w.ok {
        var bytes := BytesOf(WithProtection(l, WordOf(ReadBytes(kernel, va, 4)), signer, ptype));
        ReadAfterWrite(kernel, va, bytes);
        DecodeOverlay(l, WordOf(ReadBytes(kernel, va, 4)), Protection(signer, ptype, 0));
        WordOfBytesOf(WithProtection(l, WordOf(ReadBytes(kernel, va, 4)), signer, ptype));
        LowBitsOfSmaller(0, l.audit.width);
      } else {
        FailedWriteStaysInRange(kernel, va, 4, ans.writeLeftAs);
      }
    }
  }

  /**
   * A run of KDUControlProcess changes at most the four bytes of the field.
   * When it makes no write kernel memory is unchanged; a failed write may have
   * left the field partly written. On TRUE a fresh read of the field decodes
   * to the requested Signer and Type (cut to their widths) with Audit 0.
   */
  lemma {:induction false} SuccessReadsBack(ctx: Context, kernel: Memory, h: Handle, pid: Pid,
                                            signer: u32, ptype: u32, ans: ControlAnswers)
    requires LayoutOk(ctx.layout)
    ensures var r := Control(ctx, kernel, h, pid, signer, ptype, ans);
      var va := ProtectionAddress(ans.processObject, ProtectionOffset(ctx.table, ctx.ntBuildNumber));
      && r.kernel.Keys == kernel.Keys
      && (forall x :: x in kernel && !InRange(va, 4, x) ==> r.kernel[x] == kernel[x])
      && ((forall i :: 0 <= i < |r.events| ==> !r.events[i].WriteKernel?) ==> r.kernel == kernel)
      && (r.ok ==>
            && Mapped(r.kernel, va, 4)
            && Decode(ctx.layout, WordOf(ReadBytes(r.kernel, va, 4)))
               == Protection(LowBits(signer, ctx.layout.signer.width), LowBits(ptype, ctx.layout.ptype.width), 0))
  {
    var r := Control(ctx, kernel, h, pid, signer, ptype, ans);
    var offset := ProtectionOffset(ctx.table, ctx.ntBuildNumber);
    var va := ProtectionAddress(ans.processObject, offset);
    if ans.openGranted && ans.processObject != 0 && offset != 0 {
      var w := Rewrite(ctx.layout, kernel, va, signer, ptype, ans);
      var prefix := [OpenProcess(pid, Some(h)), QueryObject(h, ans.processObject)];
      assert r.events == prefix + w.events + [Close(h)];
      RewriteReadsBack(ctx.layout, kernel, va, signer, ptype, ans);
      if forall i :: 0 <= i < |r.events| ==> !r.events[i].WriteKernel? {
        forall i | 0 <= i < |w.events| ensures !w.events[i].WriteKernel? {
          assert w.events[i] == r.events[i + 2];
        }
      }
    }
  }
}
