/**
 * KDURunCommandPPL: create a process suspended, make it PsProtectedSignerAntimalware
 * with PsProtectedTypeProtectedLight through KDUControlProcess, and only then
 * resume its thread, wait for it to exit and close both handles.
 *
 * RunPPL is the sequence as a function of the system's answers; RunCommandPPL
 * runs it against a Host.System and is proved to do exactly what RunPPL says.
 */
module Launcher {

  import opened Base
  import opened Bits
  import opened Codec
  import opened Kernel
  import opened Host
  import opened Offsets
  import opened Mutator

  /** What the system answers: CreateProcess, the protection change, ResumeThread. */
  datatype LaunchAnswers = LaunchAnswers(
    createGranted: bool,        // CreateProcess succeeds
    pid: Pid,                   // the dwProcessId it reports
    control: ControlAnswers,    // the answers to KDUControlProcess's calls
    previousSuspendCount: u32)  // what ResumeThread returns

  /** `leaked`: the handles the routine leaves open. */
  datatype LaunchOutcome = LaunchOutcome(ok: bool, kernel: Memory, events: seq<Event>,
                                         leaked: set<Handle>, nextHandle: Handle)

  /** The fixed arguments to KDUControlProcess. */
  function LaunchControl(ctx: Context, kernel: Memory, h: Handle, pid: Pid, ans: ControlAnswers): ControlOutcome
    requires LayoutOk(ctx.layout)
  {
    Control(ctx, kernel, h, pid, ctx.values.signerValue(Antimalware), ctx.values.typeValue(ProtectedLight), ans)
  }

  /** The calls after a successful protection change, and the handles they leave open. */
  datatype Tail = Tail(events: seq<Event>, leaked: set<Handle>)

  /**
   * After a successful protection change: resume the thread; unless the previous suspend count was 1,
   * stop there; otherwise wait for the process and close both handles.
   */
  function Resumed(info: Launched, previousSuspendCount: u32): Tail {
    if previousSuspendCount != 1 then
      Tail([Resume(info.thread, previousSuspendCount)], {info.process, info.thread})
    else
      Tail([Resume(info.thread, 1), WaitForExit(info.process), Close(info.process), Close(info.thread)], {})
  }

  /**
   * Once the process exists: change its protection through
   * KDUControlProcess, with `h` the next handle; on success resume it.
   */
  function AfterCreate(ctx: Context, kernel: Memory, info: Launched, h: Handle, ans: LaunchAnswers): LaunchOutcome
    requires LayoutOk(ctx.layout)
  {
    var c := LaunchControl(ctx, kernel, h, info.pid, ans.control);
    if !c.ok then
      LaunchOutcome(false, c.kernel, c.events, {info.process, info.thread}, c.nextHandle)
    else
      var t := Resumed(info, ans.previousSuspendCount);
      LaunchOutcome(true, c.kernel, c.events + t.events, t.leaked, c.nextHandle)
  }

  /** The steps of KDURunCommandPPL, with `h` the next handle the system hands out. */
  function RunPPL(ctx: Context, kernel: Memory, h: Handle, commandLine: string, ans: LaunchAnswers): LaunchOutcome
    requires LayoutOk(ctx.layout)
  {
    if !ans.createGranted then
      LaunchOutcome(false, kernel, [CreateSuspended(commandLine, None)], {}, h)
    else
      var info := Launched(ans.pid, h, h + 1);
      var a := AfterCreate(ctx, kernel, info, h + 2, ans);
      LaunchOutcome(a.ok, a.kernel, [CreateSuspended(commandLine, Some(info))] + a.events, a.leaked, a.nextHandle)
  }

  /** The ResumeThread call and what follows it, against the system. */
  method ResumeAndWait(sys: System, info: Launched, previousSuspendCount: u32)
    requires info.process in sys.handles && info.thread in sys.handles && info.process != info.thread
    modifies sys`handles, sys`log
    ensures var t := Resumed(info, previousSuspendCount);
      && sys.log == old(sys.log) + t.events
      && sys.handles == if t.leaked == {} then old(sys.handles) - {info.process, info.thread} else old(sys.handles)
  {
    var resumeCount := sys.ResumeThread(info.thread, previousSuspendCount);
    if resumeCount != 1 {
      return;
    }
    sys.WaitForSingleObject(info.process);
    sys.CloseHandle(info.process);
    sys.CloseHandle(info.thread);
  }

  /** The KDUControlProcess call and what follows it, against the system. */
  method ProtectAndResume(ctx: Context, sys: System, info: Launched, ans: LaunchAnswers) returns (ok: bool)
    requires LayoutOk(ctx.layout) && sys.Valid()
    requires info.process in sys.handles && info.thread in sys.handles && info.process != info.thread
    modifies sys
    ensures sys.Valid()
    ensures var a := AfterCreate(ctx, old(sys.kernel), info, old(sys.nextHandle), ans);
      && ok == a.ok
      && sys.kernel == a.kernel
      && sys.log == old(sys.log) + a.events
      && sys.handles == (if a.leaked == {} then old(sys.handles) - {info.process, info.thread} else old(sys.handles))
      && sys.nextHandle == a.nextHandle
  {
    ok := ControlProcess(ctx, sys, info.pid, ctx.values.signerValue(Antimalware),
                         ctx.values.typeValue(ProtectedLight), ans.control);
    if !ok {
      return;
    }
    ResumeAndWait(sys, info, ans.previousSuspendCount);
  }

  /** KDURunCommandPPL. */
  method RunCommandPPL(ctx: Context, sys: System, commandLine: string, ans: LaunchAnswers) returns (ok: bool)
    requires LayoutOk(ctx.layout) && sys.Valid()
    modifies sys
    ensures sys.Valid()
    ensures var r := RunPPL(ctx, old(sys.kernel), old(sys.nextHandle), commandLine, ans);
      && ok == r.ok
      && sys.kernel == r.kernel
      && sys.log == old(sys.log) + r.events
      && sys.handles == old(sys.handles) + r.leaked
      && sys.nextHandle == r.nextHandle
  {
    ghost var handles0, log0 := sys.handles, sys.log;
    var pi;
    ok, pi := sys.CreateProcessSuspended(commandLine, ans.createGranted, ans.pid);
    if !ok {
      return;
    }
    ghost var a := AfterCreate(ctx, sys.kernel, pi, sys.nextHandle, ans);
    ok := ProtectAndResume(ctx, sys, pi, ans);
    AppendAssoc(log0, [CreateSuspended(commandLine, Some(pi))], a.events);
    if Resumed(pi, ans.previousSuspendCount).leaked == {} && ok {
      AddThenRemove(handles0, pi.process, pi.thread);
    }
  }

  /** Closing two handles just opened gives back the handles open before. */
  lemma AddThenRemove(handles: set<Handle>, a: Handle, b: Handle)
    requires a !in handles && b !in handles
    ensures handles + {a, b} - {a, b} == handles
  {
  }

  // ---------------------------------------------------------------------------
  // What the launch guarantees

  /** TRUE exactly when the process was created and its protection was changed. */
  lemma {:induction false} LaunchResult(ctx: Context, kernel: Memory, h: Handle, commandLine: string,
                                        ans: LaunchAnswers)
    requires LayoutOk(ctx.layout)
    ensures RunPPL(ctx, kernel, h, commandLine, ans).ok
        <==> ans.createGranted && LaunchControl(ctx, kernel, h + 2, ans.pid, ans.control).ok
  {
  }

  /** The trace of a run whose protection change succeeded: creation, KDUControlProcess, then the tail. */
  lemma SucceededRunEvents(ctx: Context, kernel: Memory, h: Handle, commandLine: string, ans: LaunchAnswers)
    requires LayoutOk(ctx.layout)
    requires ans.createGranted && LaunchControl(ctx, kernel, h + 2, ans.pid, ans.control).ok
    ensures var r := RunPPL(ctx, kernel, h, commandLine, ans);
      var info := Launched(ans.pid, h, h + 1);
      var t := Resumed(info, ans.previousSuspendCount);
      && r.ok && r.leaked == t.leaked
      && r.events == [CreateSuspended(commandLine, Some(info))]
                     + LaunchControl(ctx, kernel, h + 2, ans.pid, ans.control).events + t.events
  {
    var info := Launched(ans.pid, h, h + 1);
    AppendAssoc([CreateSuspended(commandLine, Some(info))],
                LaunchControl(ctx, kernel, h + 2, ans.pid, ans.control).events,
                Resumed(info, ans.previousSuspendCount).events);
  }

  /**
   * The new process's thread is resumed only after the protection write has
   * succeeded: every Resume is preceded by a successful kernel write, and it
   * resumes the thread of the process just created.
   */
  lemma {:induction false} ResumeOnlyAfterProtection(ctx: Context, kernel: Memory, h: Handle,
                                                     commandLine: string, ans: LaunchAnswers)
    requires LayoutOk(ctx.layout)
    ensures var r := RunPPL(ctx, kernel, h, commandLine, ans);
      forall i :: 0 <= i < |r.events| && r.events[i].Resume? ==>
        && ans.createGranted && r.events[i].thread == h + 1
        && exists j :: 0 <= j < i && r.events[j].WriteKernel? && r.events[j].ok
  {
    var r := RunPPL(ctx, kernel, h, commandLine, ans);
    if ans.createGranted {
      var c := LaunchControl(ctx, kernel, h + 2, ans.pid, ans.control);
      var info := Launched(ans.pid, h, h + 1);
      var pre := [CreateSuspended(commandLine, Some(info))] + c.events;
      UpToControlNoResume(ctx, kernel, h, commandLine, ans);
      if c.ok {
        var t := Resumed(info, ans.previousSuspendCount);
        SucceededRunEvents(ctx, kernel, h, commandLine, ans);
        ResultIsWriteOutcome(ctx, kernel, h + 2, ans.pid, ctx.values.signerValue(Antimalware),
                             ctx.values.typeValue(ProtectedLight), ans.control);
        var j :| 0 <= j < |c.events| && c.events[j].WriteKernel? && c.events[j].ok;
        assert r.events[j + 1] == c.events[j];
        forall i | 0 <= i < |r.events| && r.events[i].Resume?
          ensures r.events[i].thread == h + 1 && j + 1 < i
        {
          assert i >= |pre|;
          assert r.events[i] == t.events[i - |pre|];
        }
      } else {
        assert r.events == pre;
      }
    }
  }

  /** Up to the end of the protection change there is no resume and no wait. */
  lemma UpToControlNoResume(ctx: Context, kernel: Memory, h: Handle, commandLine: string, ans: LaunchAnswers)
    requires LayoutOk(ctx.layout)
    ensures var pre := [CreateSuspended(commandLine, Some(Launched(ans.pid, h, h + 1)))]
                       + LaunchControl(ctx, kernel, h + 2, ans.pid, ans.control).events;
      forall i :: 0 <= i < |pre| ==> !pre[i].Resume? && !pre[i].WaitForExit?
  {
    var c := LaunchControl(ctx, kernel, h + 2, ans.pid, ans.control);
    var pre := [CreateSuspended(commandLine, Some(Launched(ans.pid, h, h + 1)))] + c.events;
    forall i | 0 < i < |pre| ensures !pre[i].Resume? && !pre[i].WaitForExit? {
      ControlCallsNoLaunchEvents(ctx, kernel, h + 2, ans.pid, ctx.values.signerValue(Antimalware),
                                 ctx.values.typeValue(ProtectedLight), ans.control, i - 1);
      assert pre[i] == c.events[i - 1];
    }
  }

  /** When creation or the protection change fails, the result is FALSE and nothing is resumed. */
  lemma {:induction false} FailureNoResume(ctx: Context, kernel: Memory, h: Handle, commandLine: string,
                                           ans: LaunchAnswers)
    requires LayoutOk(ctx.layout)
    requires !ans.createGranted || !LaunchControl(ctx, kernel, h + 2, ans.pid, ans.control).ok
    ensures var r := RunPPL(ctx, kernel, h, commandLine, ans);
      !r.ok && forall i :: 0 <= i < |r.events| ==> !r.events[i].Resume? && !r.events[i].WaitForExit?
  {
    if ans.createGranted {
      UpToControlNoResume(ctx, kernel, h, commandLine, ans);
    }
  }

  /** KDUControlProcess makes none of the process-lifecycle calls. */
  lemma {:induction false} ControlCallsNoLaunchEvents(ctx: Context, kernel: Memory, h: Handle, pid: Pid,
                                                      signer: u32, ptype: u32, ans: ControlAnswers, i: nat)
    requires LayoutOk(ctx.layout)
    requires i < |Control(ctx, kernel, h, pid, signer, ptype, ans).events|
    ensures var e := Control(ctx, kernel, h, pid, signer, ptype, ans).events[i];
      !e.Resume? && !e.WaitForExit? && !e.CreateSuspended?
  {
  }

  /**
   * A resume count other than 1 still returns TRUE, but there is no wait and
   * neither the process nor the thread handle is closed.
   */
  lemma {:induction false} ResumeAnomalyLeaks(ctx: Context, kernel: Memory, h: Handle, commandLine: string,
                                              ans: LaunchAnswers)
    requires LayoutOk(ctx.layout)
    requires ans.createGranted && LaunchControl(ctx, kernel, h + 2, ans.pid, ans.control).ok
    requires ans.previousSuspendCount != 1
    ensures var r := RunPPL(ctx, kernel, h, commandLine, ans);
      && r.ok && r.leaked == {h, h + 1}
      && r.events[|r.events| - 1] == Resume(h + 1, ans.previousSuspendCount)
      && forall i :: 0 <= i < |r.events| ==> !r.events[i].WaitForExit? && r.events[i] != Close(h)
                                             && r.events[i] != Close(h + 1)
  {
    var c := LaunchControl(ctx, kernel, h + 2, ans.pid, ans.control);
    var pre := [CreateSuspended(commandLine, Some(Launched(ans.pid, h, h + 1)))] + c.events;
    var r := RunPPL(ctx, kernel, h, commandLine, ans);
    SucceededRunEvents(ctx, kernel, h, commandLine, ans);
    assert r.events == pre + [Resume(h + 1, ans.previousSuspendCount)];
    UpToControlNoResume(ctx, kernel, h, commandLine, ans);
    HandleClosedOnce(ctx, kernel, h + 2, ans.pid, ctx.values.signerValue(Antimalware),
                     ctx.values.typeValue(ProtectedLight), ans.control);
    forall i | 0 < i < |pre| ensures pre[i] != Close(h) && pre[i] != Close(h + 1) {
      assert pre[i] == c.events[i - 1];
    }
  }

  /**
   * The normal path: the thread is resumed once, the wait comes after the resume,
   * and both handles are closed after the wait, leaving none open.
   */
  lemma {:induction false} NormalRunClosesBoth(ctx: Context, kernel: Memory, h: Handle, commandLine: string,
                                               ans: LaunchAnswers)
    requires LayoutOk(ctx.layout)
    requires ans.createGranted && LaunchControl(ctx, kernel, h + 2, ans.pid, ans.control).ok
    requires ans.previousSuspendCount == 1
    ensures var r := RunPPL(ctx, kernel, h, commandLine, ans);
      var n := |r.events|;
      && r.ok && r.leaked == {} && n >= 4
      && r.events[n - 4..] == [Resume(h + 1, 1), WaitForExit(h), Close(h), Close(h + 1)]
  {
  }

  /**
   * The protection written on launch is Antimalware / ProtectedLight with Audit
   * cleared, and every other bit of the field's word is kept.
   */
  lemma {:induction false} LaunchWritesAntimalwareLight(ctx: Context, kernel: Memory, h: Handle,
                                                        commandLine: string, ans: LaunchAnswers, i: nat)
    requires LayoutOk(ctx.layout)
    requires var r := RunPPL(ctx, kernel, h, commandLine, ans);
      i < |r.events| && r.events[i].WriteKernel?
    ensures var r := RunPPL(ctx, kernel, h, commandLine, ans);
      var e := r.events[i];
      && Mapped(kernel, e.address, 4) && |e.bytes| == 4
      && Decode(ctx.layout, WordOf(e.bytes))
         == Truncate(ctx.layout, Protection(ctx.values.signerValue(Antimalware), ctx.values.typeValue(ProtectedLight), 0))
      && forall k :: 0 <= k < 32 && !InFields(ctx.layout, k) ==>
           WordOf(e.bytes)[k] == WordOf(ReadBytes(kernel, e.address, 4))[k]
  {
    assert ans.createGranted && 0 < i;
    WriteIsReadModifyWrite(ctx, kernel, h + 2, ans.pid, ctx.values.signerValue(Antimalware),
                           ctx.values.typeValue(ProtectedLight), ans.control, i - 1);
  }

  /**
   * When the enumerator values fit their fields, a successful launch leaves the
   * field reading exactly Antimalware / ProtectedLight with Audit 0, and the
   * labels of the values read are those two enumerators' names.
   */
  lemma {:induction false} LaunchReadsBackAntimalwareLight(ctx: Context, kernel: Memory, h: Handle,
                                                           commandLine: string, ans: LaunchAnswers)
    requires LayoutOk(ctx.layout) && DistinctValues(ctx.values) && ValuesFit(ctx.values, ctx.layout)
    requires RunPPL(ctx, kernel, h, commandLine, ans).ok
    ensures var r := RunPPL(ctx, kernel, h, commandLine, ans);
      var va := ProtectionAddress(ans.control.processObject, ProtectionOffset(ctx.table, ctx.ntBuildNumber));
      && Mapped(r.kernel, va, 4)
      && var p := Decode(ctx.layout, WordOf(ReadBytes(r.kernel, va, 4)));
      && p == Protection(ctx.values.signerValue(Antimalware), ctx.values.typeValue(ProtectedLight), 0)
      && p.signer < 0x1_0000_0000 && p.ptype < 0x1_0000_0000
      && SignerLabel(ctx.values, p.signer) == "PsProtectedSignerAntimalware"
      && TypeLabel(ctx.values, p.ptype) == "PsProtectedTypeProtectedLight"
  {
    var signer, ptype := ctx.values.signerValue(Antimalware), ctx.values.typeValue(ProtectedLight);
    LaunchResult(ctx, kernel, h, commandLine, ans);
    SuccessReadsBack(ctx, kernel, h + 2, ans.pid, signer, ptype, ans.control);
    LowBitsOfSmaller(signer, ctx.layout.signer.width);
    LowBitsOfSmaller(ptype, ctx.layout.ptype.width);
  }
}
