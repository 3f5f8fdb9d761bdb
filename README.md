# xu: vendor extension-unit commands for a USB Video Class camera

A Dafny model of `main` in `src/xu.c`. This command-line tool talks to the
vendor-specific extension unit of a USB Video Class device through libuvc. Its steps:

- It checks that exactly one argument was given.
- It creates a libuvc context, finds the first device and opens it.
- It takes the first extension unit the device advertises. It accepts the unit only
  if the unit's 16-byte `guidExtensionCode` is the vendor's code
  `a29e7641-de04-47e3-8b2b-f4341aff003b`. This field is defined in section 3.7.2.6
  of the USB Device Class Definition for Video Devices 1.1.
- It maps the command token to a control selector and a command word, issues one
  control transfer, and reports the result.
- It releases the handle, the device reference and the context, falling through
  from whichever label it reached.

Files and modules:

- `xu_types.dfy` (`XuTypes`): the `byte` and `uint32` types, the C-string argument
  `Arg`, the 16-byte `Guid`, the 60-byte `VersionBuffer`, the first extension unit,
  the command `Payload`, and the protocol constants (vendor code, selectors 0x2, 0x1
  and 0xA, the words 0xFFFFFFFF, 0xFFFFFFF1, 1, 0 and 2, and the lengths 60 and 4).
- `device_locator.dfy` (`DeviceLocator`): the identity check. `Locate` is the check
  as a value. `MatchGuid` is the byte-by-byte loop that stops at the first mismatch.
- `command_resolver.dfy` (`CommandResolver`): the first- and second-character
  dispatch, `Resolve`, modelled as written. Reading one character past the end of
  the token gives the terminating NUL, as it does in C.
- `transfer_executor.dfy` (`TransferExecutor`): outcome classification, plus the
  four bytes a command word occupies in either host byte order.
- `result_reporter.dfy` (`ResultReporter`): the version text (the bytes before the
  first zero) and the report events.
- `trace.dfy` (`Trace`): the observable events of a run. These are library calls
  with their return codes, transfers, messages and releases. The module also has
  functions that pick out the acquisitions, releases and transfers of a trace.
- `xu.dfy` (`Xu`): `Behaviour`, the whole run as an event trace plus an exit code.
  `RunXu` and `UseHandle` are the step-by-step program, proved to produce exactly
  that run. The lemmas state the tool's properties about `Behaviour`.

The libuvc calls are not modelled. A `Responses` value gives what each call returns
in one run:

- the codes of `uvc_init`, `uvc_find_device` and `uvc_open`;
- the head of the `uvc_get_extension_units` list, or none;
- the return of `uvc_get_ctrl` and the 60 bytes it fills;
- the return of `uvc_set_ctrl`.

Printed text is modelled as one event per message kind.

Three behaviours of the C program are easy to misread, and the model keeps each of
them as the code has it:

- The usage text (src/xu.c:13-24) lists six whole words: `version`, `loader`,
  `reboot`, `on`, `off` and `paused`. The code does not compare whole words. It
  dispatches on the first character, and for 'o' on the second. So "pxyz" acts as
  `paused` and "verbose" as `version` (`PrefixCollisions`). A bare "o" sends an
  unassigned word, and a token such as "zzz" prints usage (`UndocumentedTokens`).
- A transport error (negative return) and a short transfer are not told apart. The
  code prints the same failure message with the return value for both, and so does
  the model (`VersionFailed`, `CommandFailed`).
- The `on`/`paused`/`off` words have no fixed byte order on the wire. The code sends
  the host's bytes of an `unsigned int`. So the byte order is a parameter, and
  little-endian is only one instance (`PtzWordsOnLittleEndianHost`).

## Model

| member | source | states |
|---|---|---|
| DeviceLocator.Locate | src/xu.c:76-94 | no unit gives "not found"; a unit is accepted iff each of its 16 code bytes equals the vendor constant, and then yields its own unit id |
| DeviceLocator.MatchGuid | src/xu.c:84-94 | the comparison loop, which stops at the first differing byte, answers true iff the code equals the vendor code |
| DeviceLocator.OneByteRejects | src/xu.c:89-94 | a single differing byte at any position rejects the unit |
| CommandResolver.Resolve | src/xu.c:98-141 | GET iff the first character is 'v', and then always selector 0x2 for 60 bytes; no transfer iff the first character is not v/o/p/l/r; selector 0xA iff the first character is 'o' or 'p'; selector 0x1 carries only the loader or reboot word; selector 0xA carries only 0, 1, 2 or the unassigned word; the word is unassigned iff the token is 'o' followed by neither 'n' nor 'f'; for every token, 'p' gives (0xA, 2), 'o' then 'n' gives (0xA, 1), 'o' then 'f' gives (0xA, 0), 'l' gives (0x1, 0xFFFFFFFF) and 'r' gives (0x1, 0xFFFFFFF1) |
| CommandResolver.DocumentedTokens | src/xu.c:98-141 | version, loader, reboot, on, off and paused resolve to (GET 0x2, 60), (SET 0x1, 0xFFFFFFFF), (SET 0x1, 0xFFFFFFF1), (SET 0xA, 1), (SET 0xA, 0), (SET 0xA, 2) |
| CommandResolver.TwoCharactersDecide | src/xu.c:98-128 | tokens that agree on their first two characters resolve identically |
| CommandResolver.PrefixCollisions | src/xu.c:98-128 | abbreviations and unrelated words sharing a leading character behave as the documented token: "p" and "pxyz" as paused, "verbose" as version, "onward" as on, "often" as off, "l" as loader, "r" as reboot |
| CommandResolver.UndocumentedTokens | src/xu.c:109-140 | "o" and "ox" select 0xA with an unassigned word; "", "zzz" and "frobnicate" are unknown |
| TransferExecutor.NegativeNeverSucceeds | src/xu.c:143-148 | a negative library return is never classified as success |
| ResultReporter.OnlyExactCountSucceeds | src/xu.c:102-148 | the version is shown iff the read returned exactly 60, and a command is reported successful iff the SET returned exactly 4; any other return gives the failure message carrying that value |
| TransferExecutor.DecodeEncode | src/xu.c:143 | the 4 bytes sent for a command word give that word back, in either byte order |
| TransferExecutor.EncodeDecode | src/xu.c:143 | every 4-byte payload is the encoding of the word it decodes to |
| TransferExecutor.PtzWordsOnLittleEndianHost | src/xu.c:109-123 | on a little-endian host, on, paused and off put 01 00 00 00, 02 00 00 00 and 00 00 00 00 on the wire |
| ResultReporter.CText | src/xu.c:103 | the version text is a prefix of the buffer, holds no zero byte, and stops at the first zero byte |
| ResultReporter.CTextUnique | src/xu.c:103 | any prefix with those three properties is the version text |
| Xu.UseHandle | src/xu.c:76-149 | the open-handle phase (extension-unit query, GUID loop, dispatch, transfer, report) produces exactly the open-handle part of the run |
| Xu.RunXu | src/xu.c:26-174 | the whole program, with its goto fall-through release labels, produces exactly the trace and exit code of `Behaviour` |
| Xu.UsageOnWrongArgumentCount | src/xu.c:36-40 | with argc other than 2 the run prints usage, exits 0, makes no library call and acquires nothing |
| Xu.NonZeroExitOnlyOnInitFailure | src/xu.c:45-50 | the exit code is non-zero iff argc is 2 and uvc_init failed; it is then uvc_init's code, and nothing is acquired or released |
| Xu.TeardownReleasesHeld | src/xu.c:158-171 | each release label releases exactly what is held there, most recently acquired first |
| Xu.SessionAcquiresHeld | src/xu.c:45-76 | up to the release labels, a run acquires the context, then the device and then the handle, as far as each call succeeds, and releases nothing |
| Xu.FindFailedAcquires | src/xu.c:45-60 | when uvc_find_device fails, the run so far acquired only the context and released nothing |
| Xu.OpenFailedAcquires | src/xu.c:45-68 | when uvc_open fails, the run so far acquired the context and the device and released nothing |
| Xu.OpenedAcquires | src/xu.c:45-149 | once the handle is open, the run so far acquired context, device and handle, and the open-handle phase acquires and releases nothing |
| Xu.WithHandleNeutral | src/xu.c:76-149 | no event of the open-handle phase acquires or releases a resource |
| Xu.RunResources | src/xu.c:45-171 | a run that created its context acquires exactly what its release label holds and releases it in reverse, with all releases at the end |
| Xu.ReleasesMirrorAcquisitions | src/xu.c:150-171 | in every run, the acquisitions are a prefix of context, device, handle; the releases are exactly their reverse, each once; after the first release only releases follow |
| Xu.TeardownByPath | src/xu.c:150-171 | handle opened: close, unref, exit; open failed: unref, exit; find failed: exit only |
| Xu.ExchangeTransfers | src/xu.c:98-149 | after identification, the token's resolution decides the one transfer issued: none, the GET, or the 4-byte SET |
| Xu.IdentifiedRun | src/xu.c:45-171 | on the vendor's device the run is the library calls, the extension-unit query, the token's exchange and the full release sequence |
| Xu.UnidentifiedRun | src/xu.c:76-171 | with the handle open and no vendor unit, the run is the library calls, the query, the identity-failure message and the full release sequence |
| Xu.UnidentifiedRunIssuesNothing | src/xu.c:36-94 | a run that does not identify the vendor unit issues no transfer |
| Xu.RunTransfers | src/xu.c:59-149 | a run issues transfers only when init, find and open succeeded and the first unit carries the vendor code |
| Xu.AtMostOneTransferToVendorUnit | src/xu.c:76-149 | every run issues at most one transfer, addressed to the first unit's id |
| Xu.IdentityFailureStopsRun | src/xu.c:76-98 | with no unit or a mismatching first unit, the matching message is printed, no transfer is issued and usage is never printed, whatever the token |
| Xu.FailureMessages | src/xu.c:76-94 | the event list of an unidentified run holds "control unit missing" iff there is no unit, "guid not matched" iff there is one, and never usage |
| Xu.VersionRequest | src/xu.c:98-106 | a 'v' token issues exactly one GET on selector 0x2 for 60 bytes; the version is shown iff 60 bytes arrived, otherwise the failure with the return code |
| Xu.VersionMessages | src/xu.c:98-106 | in a version read's event list the version is shown iff 60 bytes arrived, otherwise the failure with the return code |
| Xu.CommandRequest | src/xu.c:107-149 | a SET token issues exactly one 4-byte SET with the resolved selector and word; success is reported iff the return is 4, otherwise the failure with the return code |
| Xu.CommandMessages | src/xu.c:107-149 | in a command's event list success is reported iff the return is 4, otherwise the failure with the return code |
| Xu.UnknownTokenPrintsUsage | src/xu.c:125-140 | on an identified device an unknown token prints usage, issues no transfer and exits 0 |
| Xu.VersionLabelShown | src/xu.c:100-103 | a complete read whose buffer begins with the zero-terminated label "FW-1.2.3" shows exactly that label |

## Left out

- The libuvc and libusb calls (`uvc_init`, `uvc_find_device`, `uvc_open`, `uvc_get_extension_units`, `uvc_get_ctrl`, `uvc_set_ctrl`, `uvc_close`, `uvc_unref_device`, `uvc_exit`, `uvc_perror`) are foreign I/O. Their results are inputs (`Responses`), and the calls appear in the trace as events.
- The text of `printf` and `print_usage`, and the `debug` macro, are not modelled. Each message is one event kind. The program name in the usage text is not kept.
- The extension-unit list is not walked. Only its head is an input, because the code never follows `next`. Descriptor fields other than `bUnitID` and `guidExtensionCode` (such as `bmControls`) are not modelled.
- The value of `command` for a token 'o' followed by neither 'n' nor 'f' is not modelled. The C code reads the variable uninitialised, which is undefined behaviour. The model sends the explicit `Unspecified` payload instead of inventing a value.
- The host byte order of `&command` is a parameter (`ByteOrder`). The model does not claim a fixed wire order.
- The width of `unsigned int` is assumed to be 32 bits, so `sizeof(command)` is 4.
- ResultReporter.CText: when the 60-byte buffer holds no zero byte, the C `%s` reads past the buffer. The model shows the whole buffer instead.
- Xu.NonZeroExitOnlyOnInitFailure: the exit code is `main`'s return value. The process status seen by a shell (its low 8 bits) is not modelled.
- Timeouts and blocking of the transfer are not modelled. Neither is what happens at the USB level, since a transfer is one event whose result is an input.
