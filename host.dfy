/**
 * The operating system and the driver provider as KDUControlProcess and
 * KDURunCommandPPL see them. Each call outside the core (NtOpenProcess,
 * supQueryObjectFromHandle, the provider's ReadKernelVM / WriteKernelVM,
 * NtClose / CloseHandle, CreateProcess, ResumeThread, WaitForSingleObject)
 * is a method that appends one event to `log`. Whether a call succeeds, and
 * what it returns, are decided outside the model and come in as a parameter.
 */
module Host {

  import opened Base
  import opened Kernel

  type Handle = nat

  type Pid = u64

  /** What CreateProcess hands back in PROCESS_INFORMATION. */
  datatype Launched = Launched(pid: Pid, process: Handle, thread: Handle)

  datatype Event =
    | OpenProcess(pid: Pid, granted: Option<Handle>)
    | QueryObject(handle: Handle, processObject: Addr)
    | ReadKernel(address: Addr, size: nat, ok: bool)
    | WriteKernel(address: Addr, bytes: seq<byte>, ok: bool)
    | Close(handle: Handle)
    | CreateSuspended(commandLine: string, launched: Option<Launched>)
    | Resume(thread: Handle, previousCount: u32)
    | WaitForExit(process: Handle)

  class System {
    /** Kernel virtual memory, through the provider. */
    var kernel: Memory
    /** The handles this program holds open. */
    var handles: set<Handle>
    /** The next handle value the system hands out. */
    var nextHandle: Handle
    /** Every call made so far, in order. */
    var log: seq<Event>

    ghost predicate Valid()
      reads this
    {
      forall h :: h in handles ==> h < nextHandle
    }

    constructor (kernel0: Memory)
      ensures Valid()
      ensures kernel == kernel0 && handles == {} && nextHandle == 0 && log == []
    {
      kernel, handles, nextHandle, log := kernel0, {}, 0, [];
    }

    /** NtOpenProcess; `granted` is whether the system grants the access. */
    method NtOpenProcess(pid: Pid, granted: bool) returns (ok: bool, h: Handle)
      requires Valid()
      modifies this
      ensures Valid()
      ensures ok == granted && kernel == old(kernel)
      ensures ok ==> h == old(nextHandle) && h !in old(handles)
      ensures handles == if ok then old(handles) + {h} else old(handles)
      ensures nextHandle == if ok then old(nextHandle) + 1 else old(nextHandle)
      ensures log == old(log) + [OpenProcess(pid, if ok then Some(h) else None)]
    {
      ok, h := granted, nextHandle;
      if ok {
        handles := handles + {h};
        nextHandle := nextHandle + 1;
      }
      log := log + [OpenProcess(pid, if ok then Some(h) else None)];
    }

    /** supQueryObjectFromHandle; `found` is the object address the system reports, 0 if none. */
    method QueryObjectFromHandle(h: Handle, found: Addr) returns (processObject: Addr)
      requires h in handles
      modifies this`log
      ensures processObject == found
      ensures log == old(log) + [QueryObject(h, processObject)]
    {
      processObject := found;
      log := log + [QueryObject(h, processObject)];
    }

    /** The provider's ReadKernelVM; it fails when it is `granted` no access or the bytes are not mapped. */
    method ReadKernelVM(address: Addr, size: nat, granted: bool) returns (ok: bool, bytes: seq<byte>)
      modifies this`log
      ensures ok == (granted && Mapped(kernel, address, size))
      ensures ok ==> bytes == ReadBytes(kernel, address, size)
      ensures log == old(log) + [ReadKernel(address, size, ok)]
    {
      ok := granted && Mapped(kernel, address, size);
      bytes := if ok then ReadBytes(kernel, address, size) else [];
      log := log + [ReadKernel(address, size, ok)];
    }

    /**
     * The provider's WriteKernelVM. A write that fails may have stored part of
     * `bytes`: the target bytes then hold `leftAs`, as the system says.
     */
    method WriteKernelVM(address: Addr, bytes: seq<byte>, granted: bool, leftAs: seq<byte>) returns (ok: bool)
      modifies this`kernel, this`log
      ensures ok == (granted && Mapped(old(kernel), address, |bytes|))
      ensures kernel == if ok then WriteBytes(old(kernel), address, bytes)
                        else FailedWrite(old(kernel), address, |bytes|, leftAs)
      ensures log == old(log) + [WriteKernel(address, bytes, ok)]
    {
      ok := granted && Mapped(kernel, address, |bytes|);
      if ok {
        kernel := WriteBytes(kernel, address, bytes);
      } else {
        kernel := FailedWrite(kernel, address, |bytes|, leftAs);
      }
      log := log + [WriteKernel(address, bytes, ok)];
    }

    /** NtClose / CloseHandle of a handle this program holds. */
    method CloseHandle(h: Handle)
      requires h in handles
      modifies this`handles, this`log
      ensures handles == old(handles) - {h}
      ensures log == old(log) + [Close(h)]
    {
      handles := handles - {h};
      log := log + [Close(h)];
    }

    /**
     * CreateProcess with CREATE_SUSPENDED; on success the system reports the new
     * process identifier `pid` and this program holds a process and a thread handle.
     */
    method CreateProcessSuspended(commandLine: string, granted: bool, pid: Pid) returns (ok: bool, info: Launched)
      requires Valid()
      modifies this
      ensures Valid()
      ensures ok == granted && kernel == old(kernel)
      ensures info == Launched(pid, old(nextHandle), old(nextHandle) + 1)
      ensures ok ==> info.process !in old(handles) && info.thread !in old(handles)
      ensures handles == if ok then old(handles) + {info.process, info.thread} else old(handles)
      ensures nextHandle == if ok then old(nextHandle) + 2 else old(nextHandle)
      ensures log == old(log) + [CreateSuspended(commandLine, if ok then Some(info) else None)]
    {
      ok := granted;
      info := Launched(pid, nextHandle, nextHandle + 1);
      if ok {
        handles := handles + {info.process, info.thread};
        nextHandle := nextHandle + 2;
      }
      log := log + [CreateSuspended(commandLine, if ok then Some(info) else None)];
    }

    /** ResumeThread; `previous` is the suspend count the system reports ((DWORD)-1 on failure). */
    method ResumeThread(thread: Handle, previous: u32) returns (count: u32)
      requires thread in handles
      modifies this`log
      ensures count == previous
      ensures log == old(log) + [Resume(thread, count)]
    {
      count := previous;
      log := log + [Resume(thread, count)];
    }

    /** WaitForSingleObject with INFINITE: returns once the process has exited. */
    method WaitForSingleObject(process: Handle)
      requires process in handles
      modifies this`log
      ensures log == old(log) + [WaitForExit(process)]
    {
      log := log + [WaitForExit(process)];
    }
  }
}
