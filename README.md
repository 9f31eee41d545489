# KDU process-protection mutator, modelled in Dafny

This project models the process-protection part of KDU's Hamakaze loader
(`Source/Hamakaze/ps.cpp`). With a kernel-memory read/write primitive
supplied by a vulnerable driver ("provider"), KDU rewrites the
`PS_PROTECTION` field of a process's `EPROCESS` object:

- `KDUControlProcess` opens the target process. It finds its `EPROCESS`
  object and picks the field's offset for the running Windows build. It
  then reads the four-byte `ULONG` buffer at that address, assigns Signer,
  Type and Audit through the bit-field overlay and writes the buffer back.
  The process handle is closed on every path after a successful open.
- `KDUUnprotectProcess` is that routine with `PsProtectedSignerNone` /
  `PsProtectedTypeNone`.
- `KDURunCommandPPL` creates a process suspended and makes it
  Antimalware / ProtectedLight. Only then does it resume the process's
  thread, wait for the process and close both handles.
- `KDUGetProtectionTypeAsString` / `KDUGetProtectionSignerAsString` name
  the enumerator values.

The modules are:

- `Base`: `Option`, the integer widths, and sequence associativity.
- `Bits`: bit strings and the numbers they denote: `ToBits`, `FromBits`,
  `LowBits`, with their round trips.
- `Codec`: the enumerators and their labels, and the `PS_PROTECTION`
  bit-field overlay on the 32-bit buffer word (`Word`, least significant
  bit first). It covers `GetField`, `SetField`, `Overlay` and `Decode`.
- `Offsets`: the build-number → offset switch (`ProtectionOffset`) and a
  reference table `OffsetOf` giving each release's offset constant.
- `Kernel`: kernel memory as a map from address to byte. It holds the
  little-endian conversion between four bytes and the buffer word.
- `Host`: the class `System`, which stands for the system and the
  provider. Each external call (NtOpenProcess, supQueryObjectFromHandle,
  the provider's ReadKernelVM / WriteKernelVM, NtClose / CloseHandle,
  CreateProcess, ResumeThread, WaitForSingleObject) is a method that
  appends one `Event` to the field `log`. Whether a call succeeds, and what
  it reports, is a parameter of the call.
- `Mutator`: the pure protocol `Control` (with `Rewrite`, the read-modify-write
  step) and the imperative `ControlProcess` / `UnprotectProcess`, plus the
  lemmas about the protocol.
- `Launcher`: the pure protocol `RunPPL` (with `AfterCreate` and
  `Resumed`) and the imperative `RunCommandPPL`, plus the lemmas about
  the launch.

Each imperative method is proved to leave the system in exactly the state
its pure counterpart computes from the old state and the answers:
- the result;
- kernel memory;
- the call trace;
- the open handles;
- the next handle.

The guarantees are then stated as lemmas about the pure functions.

Several values come from headers that are not part of this model:
- the numeric values of the enumerators;
- the bit positions of Type, Audit and Signer;
- the `NT_*` build numbers;
- the `PsProtectionOffset_*` constants.

They are parameters (`Enumerations`, `Layout`, `BuildTable`). These
predicates state what is assumed of them:
- `DistinctValues`: the values of each enumerator are distinct case labels.
- `LayoutOk`: the three fields lie inside the word and are disjoint.
- `ValuesFit` (assumed only by `Launcher.LaunchReadsBackAntimalwareLight`): every enumerator value fits the field it is stored in.
- `TableOk`: the build numbers are distinct case labels, and every offset
  constant is nonzero.

The model records these points of the routines' behaviour:

- The new value keeps every bit of the old buffer outside the three
  fields, because the code edits the buffer it just read
  (`Mutator.WriteIsReadModifyWrite`). It is not rebuilt from scratch.
- For an unsupported build, NtOpenProcess and supQueryObjectFromHandle
  run before the build is examined, and the handle is then closed. What
  holds is that the provider's read and write are never called
  (`Mutator.UnsupportedBuildNoAccess`).
- `KDURunCommandPPL` always asks for Antimalware / ProtectedLight.
- It closes the process and thread handles only on the normal path. When
  the protection change fails, or the resume count is not 1, it returns
  with both handles open. The model records them as `leaked`
  (`Launcher.ResumeAnomalyLeaks`, `Launcher.RunCommandPPL`).

## Model

| member | source | states |
|---|---|---|
| Codec.TypeLabel | Source/Hamakaze/ps.cpp:22-45 | total; with distinct enumerator values each of the three type values gets its own enumerator name; the result is "Unknown Type" exactly when the value is none of them |
| Codec.SignerLabel | Source/Hamakaze/ps.cpp:47-87 | total; with distinct enumerator values each of the nine signer values gets its own enumerator name; the result is "Unknown Value" exactly when the value is none of them |
| Codec.TypeNamesDistinct | Source/Hamakaze/ps.cpp:22-45 | the three type labels are pairwise different strings |
| Codec.SignerNamesDistinct | Source/Hamakaze/ps.cpp:47-87 | the nine signer labels are pairwise different strings |
| Codec.TypeLabelNames | Source/Hamakaze/ps.cpp:22-45 | a value labelled with a type's name is that type's value, for any enumerator values |
| Codec.SignerLabelNames | Source/Hamakaze/ps.cpp:47-87 | a value labelled with a signer's name is that signer's value, for any enumerator values |
| Codec.LabelsIdentifyValues | Source/Hamakaze/ps.cpp:22-87 | two values with the same known label are the same value, for any enumerator values |
| Codec.Decode | Source/Hamakaze/ps.cpp:268-284 | the Signer, Type and Audit bit-fields as read through the `PS_PROTECTION` overlay; its round trips with `Overlay` are `Codec.DecodeOfOverlay` and `Codec.OverlayOfDecoded` |
| Codec.SetField | Source/Hamakaze/ps.cpp:286-288 | one bit-field assignment: the word with the field's bits replaced by the value's low bits; its properties are `Codec.GetSetField` and `Codec.SetFieldKeepsOtherBits` |
| Codec.Overlay | Source/Hamakaze/ps.cpp:286-288 | the three assignments Signer, Type, Audit in that order; its properties are `Codec.DecodeOverlay` and `Codec.OverlayKeepsOtherBits` |
| Codec.GetField | Source/Hamakaze/ps.cpp:268-284 | a bit-field read from the buffer fits the field's width |
| Codec.GetSetField | Source/Hamakaze/ps.cpp:286-288 | after a bit-field assignment the field holds the low bits of the assigned value |
| Codec.SetFieldKeepsOtherBits | Source/Hamakaze/ps.cpp:286-288 | a bit-field assignment changes no bit outside that field |
| Codec.GetFieldOfAgreeing | Source/Hamakaze/ps.cpp:286-288 | a field reads the same in two words that agree on its bits |
| Codec.FieldBitsDetermined | Source/Hamakaze/ps.cpp:286-288 | two words whose field reads the same value agree on all of the field's bits |
| Codec.DecodeOverlay | Source/Hamakaze/ps.cpp:286-288 | after the three assignments the buffer decodes to the assigned Signer, Type and Audit, each cut to its field width |
| Codec.OverlayKeepsOtherBits | Source/Hamakaze/ps.cpp:286-288 | the three assignments leave every bit outside the three fields as read |
| Codec.DecodeOfOverlay | Source/Hamakaze/ps.cpp:268-288 | decode after encode: values that fit their fields read back exactly, whatever the old buffer |
| Codec.OverlayOfDecoded | Source/Hamakaze/ps.cpp:268-288 | encode after decode: writing back the fields just read leaves the buffer unchanged |
| Offsets.ProtectionOffset | Source/Hamakaze/ps.cpp:212-247 | the switch on the build number, 0 in the default case; its properties are `Offsets.OffsetOfRelease` and `Offsets.OffsetLookupTotal` |
| Offsets.OffsetOfRelease | Source/Hamakaze/ps.cpp:212-247 | each release's build number selects the offset constant of its group (9600, 10240, 10586, 14393, 15063 for RS2-19H2, 19041 for 20H1-24H2) |
| Offsets.OffsetLookupTotal | Source/Hamakaze/ps.cpp:212-251 | the switch is total: a build with a case yields a nonzero offset, and the offset is 0 exactly when the build has no case |
| Kernel.ReadBytes | Source/Hamakaze/ps.cpp:263-266 | reading `n` mapped bytes gives `n` bytes, each the memory's byte at its address |
| Kernel.WriteBytes | Source/Hamakaze/ps.cpp:290-293 | writing puts each byte at its address, keeps the set of mapped addresses, and changes no other address |
| Kernel.ReadAfterWrite | Source/Hamakaze/ps.cpp:263-293 | reading back what was just written gives the written bytes |
| Kernel.FailedWrite | Source/Hamakaze/ps.cpp:290-293 | the memory after a failed write: the four target bytes may hold anything the system reports; its property is `Kernel.FailedWriteStaysInRange` |
| Kernel.FailedWriteStaysInRange | Source/Hamakaze/ps.cpp:290-293 | a failed write keeps the set of mapped addresses and changes no byte outside the bytes it was aimed at |
| Kernel.WordOf | Source/Hamakaze/ps.cpp:263-268 | the four bytes read into `Buffer` as the 32-bit word, little-endian; its round trips with `BytesOf` are `Kernel.WordOfBytesOf` and `Kernel.BytesOfWordOf` |
| Kernel.BytesOf | Source/Hamakaze/ps.cpp:290-293 | the buffer is written as four bytes |
| Kernel.WordOfBytesOf | Source/Hamakaze/ps.cpp:263-293 | the four bytes of a buffer word read back as that word |
| Kernel.BytesOfWordOf | Source/Hamakaze/ps.cpp:263-293 | four bytes read into the buffer and written out unchanged are the same four bytes |
| Host.System.NtOpenProcess | Source/Hamakaze/ps.cpp:200-203 | on success a fresh handle is opened and recorded; on failure nothing changes but the trace |
| Host.System.QueryObjectFromHandle | Source/Hamakaze/ps.cpp:206 | reports the object address the system gives (0 when none) and records the call |
| Host.System.ReadKernelVM | Source/Hamakaze/ps.cpp:263-266 | succeeds exactly when access is granted and the bytes are mapped, and then returns them |
| Host.System.WriteKernelVM | Source/Hamakaze/ps.cpp:290-293 | succeeds exactly when access is granted and the bytes are mapped, and then stores the bytes; a failed write leaves the target bytes as the system reports (`Kernel.FailedWrite`) |
| Host.System.CloseHandle | Source/Hamakaze/ps.cpp:330 | the handle is no longer open, and the call is recorded |
| Host.System.CreateProcessSuspended | Source/Hamakaze/ps.cpp:113-128 | on success a process and a thread handle, both fresh, are opened; on failure nothing is opened |
| Host.System.ResumeThread | Source/Hamakaze/ps.cpp:137 | returns the previous suspend count the system reports and records the resume |
| Host.System.WaitForSingleObject | Source/Hamakaze/ps.cpp:144 | records the wait on the process handle |
| Mutator.ProtectionAddress | Source/Hamakaze/ps.cpp:257 | `EPROCESS_TO_PROTECTION`: the object address plus the offset, modulo 2^64; used by `Mutator.Control` |
| Mutator.WithProtection | Source/Hamakaze/ps.cpp:286-288 | `Codec.Overlay` with the requested Signer and Type and Audit 0; used by `Mutator.Rewrite` |
| Mutator.Rewrite | Source/Hamakaze/ps.cpp:257-293 | the read, the three assignments and the write back as a function of the system's answers; its properties are `Mutator.RewriteIsReadModifyWrite`, `Mutator.RewriteResultIsWriteOutcome` and `Mutator.RewriteReadsBack` |
| Mutator.Control | Source/Hamakaze/ps.cpp:176-339 | KDUControlProcess as a function of the system's answers: open, query, offset, read-modify-write, close; its properties are the `Mutator` lemmas below |
| Mutator.RewriteProtection | Source/Hamakaze/ps.cpp:257-293 | the read, the three field assignments and the write change memory and the trace exactly as `Rewrite` says |
| Mutator.ControlProcess | Source/Hamakaze/ps.cpp:176-339 | result, kernel memory, trace and next handle are those of `Control`; the open handles are as before |
| Mutator.UnprotectProcess | Source/Hamakaze/ps.cpp:161-166 | is `Control` with PsProtectedSignerNone and PsProtectedTypeNone |
| Mutator.UnsupportedBuildNoAccess | Source/Hamakaze/ps.cpp:212-251 | a build with no case: FALSE, memory unchanged, and no kernel read or write is made |
| Mutator.UnlocatedNoAccess | Source/Hamakaze/ps.cpp:206-251 | no process object, or offset 0: FALSE, memory unchanged, no kernel read or write |
| Mutator.FailedReadNoWrite | Source/Hamakaze/ps.cpp:263-323 | after a failed read no write is made; FALSE and memory unchanged |
| Mutator.RewriteIsReadModifyWrite | Source/Hamakaze/ps.cpp:263-293 | a successful read is followed by a write to the same address whose bytes decode to (Signer, Type, 0), each cut to its field width, and keep every other bit read |
| Mutator.WriteIsReadModifyWrite | Source/Hamakaze/ps.cpp:257-293 | every write in a run comes right after a successful read of the same four bytes; it writes Signer and Type, each cut to its field width, with Audit 0, and keeps every other bit read |
| Mutator.RewriteResultIsWriteOutcome | Source/Hamakaze/ps.cpp:290-293 | the read-modify-write succeeds exactly when its write reports success |
| Mutator.ResultIsWriteOutcome | Source/Hamakaze/ps.cpp:290-338 | the result is TRUE exactly when a write was made and reported success |
| Mutator.HandleClosedOnce | Source/Hamakaze/ps.cpp:200-334 | after a successful open the handle is closed exactly once, as the last call; after a failed open nothing else is called |
| Mutator.RewriteReadsBack | Source/Hamakaze/ps.cpp:263-293 | only the four bytes read may change; with no write memory is unchanged; after a successful write a fresh read decodes to the requested Signer and Type (cut to their widths) with Audit 0 |
| Mutator.SuccessReadsBack | Source/Hamakaze/ps.cpp:176-339 | a run changes at most the four bytes of the field; a run that makes no write leaves memory unchanged (a failed write may leave the field partly written); on TRUE a fresh read of the field decodes to (Signer, Type, 0), cut to the field widths |
| Launcher.Resumed | Source/Hamakaze/ps.cpp:137-148 | the calls from ResumeThread on, and the handles left open: both when the count is not 1, none otherwise; used by `Launcher.AfterCreate` |
| Launcher.LaunchControl | Source/Hamakaze/ps.cpp:131 | `Mutator.Control` with the fixed arguments PsProtectedSignerAntimalware and PsProtectedTypeProtectedLight; used by `Launcher.AfterCreate` |
| Launcher.AfterCreate | Source/Hamakaze/ps.cpp:131-150 | the KDUControlProcess call with Antimalware / ProtectedLight, then on TRUE the resume tail; on FALSE both handles stay open |
| Launcher.RunPPL | Source/Hamakaze/ps.cpp:97-151 | KDURunCommandPPL as a function of the system's answers; its properties are the `Launcher` lemmas below |
| Launcher.ResumeAndWait | Source/Hamakaze/ps.cpp:137-148 | resume; with count 1 also wait and close both handles, otherwise stop with both still open (as `Resumed` says) |
| Launcher.ProtectAndResume | Source/Hamakaze/ps.cpp:131-150 | the protection change and what follows behave as `AfterCreate` says |
| Launcher.RunCommandPPL | Source/Hamakaze/ps.cpp:97-151 | result, kernel memory, trace, open handles (old ones plus the leaked ones) and next handle are those of `RunPPL` |
| Launcher.LaunchResult | Source/Hamakaze/ps.cpp:125-150 | TRUE exactly when the process was created and the protection change (Antimalware, ProtectedLight) succeeded |
| Launcher.ResumeOnlyAfterProtection | Source/Hamakaze/ps.cpp:131-137 | every resume targets the new thread and comes after a successful protection write |
| Launcher.UpToControlNoResume | Source/Hamakaze/ps.cpp:113-134 | nothing before the end of the protection change resumes or waits |
| Launcher.FailureNoResume | Source/Hamakaze/ps.cpp:125-134 | if creation or the protection change fails: FALSE, no resume and no wait |
| Launcher.ControlCallsNoLaunchEvents | Source/Hamakaze/ps.cpp:176-339 | KDUControlProcess creates, resumes and waits for nothing |
| Launcher.ResumeAnomalyLeaks | Source/Hamakaze/ps.cpp:137-141 | a resume count other than 1 returns TRUE; there is no wait and neither handle is closed |
| Launcher.NormalRunClosesBoth | Source/Hamakaze/ps.cpp:137-150 | with count 1 the run ends with resume, wait, close process, close thread, and no handle is left open |
| Launcher.LaunchWritesAntimalwareLight | Source/Hamakaze/ps.cpp:131 | the protection written on launch decodes to Antimalware / ProtectedLight, each cut to its field width, with Audit 0, and the other bits are kept |
| Launcher.LaunchReadsBackAntimalwareLight | Source/Hamakaze/ps.cpp:131-134 | when the enumerator values fit their fields (`ValuesFit`), a successful launch leaves the field reading exactly Antimalware / ProtectedLight with Audit 0, and the labels of the values read are "PsProtectedSignerAntimalware" and "PsProtectedTypeProtectedLight" |

## Left out

- Console output and diagnostics are not modelled: `printf_s`, `supPrintfEvent`, `supShowHardError`, `FUNCTION_ENTER_MSG` / `FUNCTION_LEAVE_MSG` and `GetLastError`. This includes the label functions' use in those messages. They change no state the routines return.
- The concrete values of the header constants are not modelled: enumerators, bit positions, `NT_*` build numbers and `PsProtectionOffset_*`. Those headers are not part of this model, so the constants are parameters constrained by `DistinctValues`, `LayoutOk` and `TableOk`.
- `Context->DeviceHandle`, `Context->Provider` and the driver are left out; the provider is the read/write pair of `Host.System`.
- Access masks, `OBJECT_ATTRIBUTES`, `CLIENT_ID`, `STARTUPINFO` and the other arguments that only configure the system calls are left out.
- NTSTATUS values are not modelled; each failure is a boolean.
- A read is modelled as all-or-nothing: it fails when access is not granted or any of the four bytes is unmapped. A failed write to four mapped bytes may leave them holding any bytes the system reports; a write to bytes not all mapped changes nothing.
- Addresses are 64-bit. `EPROCESS_TO_PROTECTION` is modelled as addition modulo 2^64 (`Mutator.ProtectionAddress`); the width of that macro is an assumption of the model.
- The process being modified by the system between the read and the write is not modelled, and neither is a process identifier reused between open and write. The routines run single-threaded against a system that answers each call once.
- The time a process runs and the blocking of `WaitForSingleObject(INFINITE)` are not modelled; the wait is one event in the trace.
- Terminating a process whose protection change failed is left out, because the code does not do it: the process stays suspended and its handles stay open, as recorded in `leaked`.
- Mutator.SuccessReadsBack, Mutator.RewriteReadsBack, Mutator.RewriteIsReadModifyWrite, Mutator.WriteIsReadModifyWrite: they state the requested values cut to their field widths, as a C bit-field assignment stores them. For values that fit, `Bits.LowBitsOfSmaller` gives the exact values; `Launcher.LaunchReadsBackAntimalwareLight` does so for the launch.
