# Verified model of the Exasol Local VM launcher

This project models the parts of the macOS launcher (`launcher/mac`), the guest's data-disk service
and the copyright-header tool that carry real logic, and proves properties of them in Dafny 4.11.
`dafny verify dfyconfig.toml` checks everything.

| file | models |
|---|---|
| `Text.dfy` | the string routines of Go's standard library that the launcher relies on |
| `ForwardSpecs.dfy` | the `<name>:<guest-port>:<host-port>` codec and the list `start` passes to the daemon |
| `ForwardCommand.dfy` | the client side of `forward add`, `remove` and `list` |
| `ForwardService.dfy` | the sequential machine that the live-forward service promises to be |
| `Listeners.dfy` | the accounting of bound loopback listeners |
| `StateFile.dfy` | publication of `vm-state.json` by temporary file and rename |
| `LiveForwards.dfy` | the registry as a class that the request methods update in place |
| `ForwardProtocol.dfy` | start-up, signal handler and request handlers as one transition system |
| `ForwardRequests.dfy` | what clients can rely on over every run of that system |
| `DaemonLifetime.dfy` | what the SSH gate and start-up failures lead to, and that the daemon can always end |
| `ForwarderShutdown.dfy` | the goroutines of one `LoopbackForwarder` and its `Close` |
| `ShellQuoting.dfy` | `remoteCommand` against a POSIX shell reader |
| `StartHandshake.dfy` | `startCmd`, its monitors and the daemon's SSH gate |
| `SshWait.dfy` | `waitForSSHService` |
| `InitOutput.dfy` | `waitForInitOutput` |
| `DataDisk.dfy` | creation, growth and formatting of the data disk |
| `CopyrightHeaders.dfy` | `tools/copyright_headers.py` |

How the live-forward files fit together: `ForwardService` says what one request, one start-up
registration, the opening and the shutdown of the service do to the registry, as relations on values.
`LiveForwards` proves that the code, run without interference, does exactly that, and what it does to
listeners and file. `ForwardProtocol` takes the code apart into its observable steps, lets all parties
interleave and every fallible step fail, and proves by an inductive invariant that the result is still
the sequential machine; `ForwardRequests` derives from it what repeated, failed and
successful requests do, and `DaemonLifetime` how start-up goes on and ends.
`ForwarderShutdown` justifies the one step in which those two treat `Close` as
a whole: it always ends, with everything closed.

Conventions: a string is a sequence of characters; integers are unbounded and 64-bit wrap-around is
written out where it matters; whatever the operating system, the network, the JSON library, the `flag`
package, `net.ParseIP` or a guest tool decides is a parameter (named luck, choice, network, console,
tools) over which every statement quantifies.

## Findings

Where the code does less than its documentation or a natural reading promises, the exact condition is
proved:

- Shutdown does not always leave the registry empty. When `closeForwarders` releases the lock, it stays empty
  exactly when start-up has no forward left to register, in hand or on its list
  (`StaysEmptyIffStartupIsDone`, with a run in `SignalDuringStartup`); what it holds later is what start-up
  registered since (`StoppedRegistryIsLateStartup`).
- A failed request changes something exactly when it is a `forward-remove` of a registered name whose
  save succeeds and whose `Close` then reports an error (`LiveForwards.Daemon.HandleForwardRequest`; over
  every run, `ForwardRequests.RequestOutcome`, with a run in `FailedRemoveExample`). Every other failed
  request leaves registry, listeners and file as they were.
- A disk size is counted modulo 2^34 GiB (`SizeBytesWraps`). From 2^33 GiB on it is never what a successful
  command leaves (`EnsureDataDisk`, `ResizeDataDisk`), and a resize whose counted size is not negative is
  accepted all the same, which can empty the disk (`OversizedResizeEmptiesTheDisk`).
- On the control socket a remove takes its name as it is, while an add trims it: given the name text of an
  add, a remove addresses the forward exactly when that text has no white space around it, and otherwise
  succeeds without effect (`RemoveByTheTextOfAnAdd`). The command line trims both.
- The console-log slice bounds cross exactly when the end marker begins in the trailing `===` of the
  first start marker (`CrossesIffOverlapping`).
- A file that is only an unterminated shebang swallows the first header line; it is the only text for
  which fixing does not satisfy the check, and a second fix repairs it (`FixThenCheck`,
  `FixIsIdempotent`).
- The guest service formats a disk without a valid superblock also when `blkid` reports `ext4`
  (`BootIsSafe`).

## Model

| member | source | states |
|---|---|---|
| Text.SplitJoin | launcher/mac/forwarding.go:44 | strings.Split undoes strings.Join on pieces without the separator |
| Text.JoinSplit | launcher/mac/forwarding.go:221 | strings.Join undoes strings.Split, whose pieces never contain the separator |
| Text.TrimSpaceUnique | launcher/mac/forwarding.go:228 | TrimSpace is the only cut of white space from both ends that leaves a trimmed middle |
| Text.SpacesListed | launcher/mac/forwarding.go:228 | white space is the list of characters that unicode.IsSpace names |
| Text.AtoiFormat | launcher/mac/forwarding.go:245-252 | Atoi reads back every "%d"-formatted integer that fits 64 bits and rejects every other one |
| Text.AtoiCharacterised | launcher/mac/forwarding.go:245-252 | Atoi reads a text as a number iff it is an optional sign, any zeros and the number's digits, and the number fits 64 bits |
| ForwardSpecs.NameCharsListed | launcher/mac/forwarding.go:232-243 | a name consists of letters, digits, full stops, underscores and hyphens |
| ForwardSpecs.ParseCharacterised | launcher/mac/forwarding.go:220-259 | a text parses to a spec iff it is three colon-free fields that trim to that valid name and read as those two ports in range |
| ForwardSpecs.FormatThenParse | launcher/mac/forward_commands.go:118 | for any name text and integers, format-then-parse succeeds iff the trimmed name and both ports are admissible, and returns them |
| ForwardSpecs.EncodeThenParse | launcher/mac/forwarding.go:220-263 | the encoding of a spec parses back to it iff the spec is admissible |
| ForwardSpecs.ParseIdempotent | launcher/mac/forwarding.go:220-263 | every accepted text has an admissible spec whose encoding parses to the same spec |
| ForwardSpecs.ParsedNamesAreDistinct | launcher/mac/forwarding.go:265-278 | every list the daemon accepts has admissible specs with pairwise distinct names |
| ForwardSpecs.ExtendedIff | launcher/mac/forwarding.go:47-60 | a value is appended iff it parses and its name is new |
| ForwardSpecs.ParsedSpecsCharacterised | launcher/mac/forwarding.go:265-278 | the daemon accepts a list text iff it is blank or every comma-separated entry parses and the names are distinct, and then as exactly those specs in order |
| ForwardSpecs.ListRoundTrip | launcher/mac/forwarding.go:38-60 | the daemon reads back exactly the list that successful Set calls built, in order, the empty list included |
| ForwardSpecs.ForwardSpecList.Set | launcher/mac/forwarding.go:47-60 | succeeds iff the value parses and its name is new, then appends the parsed spec; reports every other value as an error and changes nothing |
| ForwardSpecs.ForwardSpecList.String | launcher/mac/forwarding.go:38-45 | the text of a well-formed list parses back to the list |
| ForwardSpecs.ParseForwardSpecs | launcher/mac/forwarding.go:265-278 | returns the parsed entries in order, and an error iff some entry does not parse or a name repeats |
| ForwardCommand.ParseForwardCommand | launcher/mac/forward_commands.go:55-98 | accepts exactly the documented forms; an accepted add is admissible to the daemon under the same name |
| ForwardCommand.RemoveKeyIsTrimmedName | launcher/mac/forward_commands.go:81-89 | remove addresses the trimmed text iff that is a valid name |
| ForwardCommand.AddAndRemoveAgreeOnTheKey | launcher/mac/forward_commands.go:72-89 | the name text of any accepted add, given to remove, addresses the key that add registers |
| ForwardService.RequestedAddresses | launcher/mac/forward_commands.go:122-129 | no address means 127.0.0.1, a loopback address its dotted form 127.b.c.d or ::1, anything else is refused |
| ForwardService.AddressTextsDiffer | launcher/mac/forward_commands.go:129-131 | different loopback addresses have different texts |
| ForwardService.AddReportsItsMapping | launcher/mac/forward_commands.go:163-169 | a successful add reports under its name the requested address and guest port and a nonzero host port, the requested one unless that was zero |
| ForwardRequests.AddIsIdempotent | docs/requirements.md:32-34 | in the history of every reachable state, whatever comes between a successful add and a later add of that name, unless it removes the name: the later one changes nothing and succeeds iff its settings are the same, with the same mapping |
| ForwardRequests.AddRepeatsStartup | docs/architecture.md:35-38 | the same for a forward that start-up registered: a later add of its name changes nothing and, on a ready service, succeeds iff it asks for the start-up spec on 127.0.0.1 |
| ForwardRequests.RemoveIsIdempotent | docs/requirements.md:32-34 | likewise a later remove of a removed name succeeds and changes nothing unless the name was added again or the service shut down |
| ForwardRequests.RemoveByTheTextOfAnAdd | launcher/mac/forward_commands.go:118-151 | a remove given the name text of an earlier successful add addresses that forward iff the text is trimmed; otherwise it succeeds and changes nothing |
| ForwardRequests.OtherForwardsPreserved | docs/requirements.md:34-35 | a forward stays as it is, and a name free, over any stretch of the history in which nothing addresses that name |
| ForwardRequests.RequestOutcome | launcher/mac/forward_commands.go:100-161 | from taking the lock to the response, in every interleaving: a failed request left registry, listeners and file as they were iff no Close failed after a saved remove; a successful one left them, added its forward or removed it |
| ForwardRequests.RemoveCanFailCommitted | launcher/mac/forward_commands.go:146-156 | in every reachable ready state with a free lock a remove of any registered name can fail after removing it |
| ForwardRequests.FailedRemoveExample | launcher/mac/forward_commands.go:146-156 | a whole run from start-up in which that happens |
| ForwardRequests.AddCanSucceed | launcher/mac/forward_commands.go:117-145 | in every reachable ready state with a free lock, every admissible add of a new name can succeed on every free port it accepts, and is then bound, registered, published and reported |
| Listeners.Bind | launcher/mac/forwarding.go:79-103 | a listener bound to a free endpoint is in flight; endpoints stay distinct, ports granted, addresses loopback |
| Listeners.Register | launcher/mac/forwarding.go:302-306 | registering the listener in flight accounts for every bound listener |
| Listeners.Unregister | launcher/mac/forward_commands.go:151 | deleting a name puts its listener, and no other, in flight |
| Listeners.CloseInFlight | launcher/mac/forward_commands.go:143-156 | closing the listener in flight leaves exactly the registered ones bound |
| Listeners.CloseRegistered | launcher/mac/forward_commands.go:218-221 | closing and deleting one entry keeps the accounting, with start-up's listener in flight or not |
| Listeners.LiveMappingsAreDistinct | launcher/mac/forward_commands.go:163-169 | two live names never publish the same address and port |
| StateFile.WriteVMState | launcher/mac/forward_commands.go:194-211 | observers see the complete old document until the complete new one; it fails iff a step fails or no temporary name is free, then leaves the directory as it was unless removing the temporary file fails too |
| StateFile.SaveForwardState | launcher/mac/forward_commands.go:171-192 | success rewrites exactly the `forwards` key, failure leaves the published file; succeeds iff the file is a JSON object and no step fails |
| LiveForwards.Daemon.StartForwarder | launcher/mac/forwarding.go:79-103 | binds exactly the requested nonzero port or a nonzero offered one, iff the operating system grants a free endpoint |
| LiveForwards.Daemon.CloseForwarder | launcher/mac/forwarding.go:155-167 | the listener is closed whether or not an error is reported |
| LiveForwards.Daemon.ForwardStatesLocked | launcher/mac/forward_commands.go:163-169 | the mapping of every registered name |
| LiveForwards.Daemon.SaveForwards | launcher/mac/forward_commands.go:171-192 | republishes the current registry iff the file is a readable JSON object and no step fails, otherwise leaves the published file alone |
| LiveForwards.Daemon.UpdateForward | launcher/mac/forward_commands.go:113-161 | registry and answer follow the sequential machine; the registry changes iff the request can take effect (new admissible name, listener and save to be had, or registered name and save), success iff it does so or there was nothing to do; an unchanged registry means unchanged listeners and file, a changed one is republished with all other keys kept |
| LiveForwards.Daemon.AddForward | launcher/mac/forward_commands.go:117-145 | the add branch meets the same specification, success conditions included |
| LiveForwards.Daemon.LaunchForward | launcher/mac/forward_commands.go:137-145 | succeeds iff a listener is granted and the save goes through, then with exactly the new forward registered and published; otherwise everything is as before |
| LiveForwards.Daemon.RemoveForward | launcher/mac/forward_commands.go:146-156 | the remove branch meets the same specification: committed iff registered and saved, successful iff Close reports no error then |
| LiveForwards.Daemon.HandleForwardRequest | launcher/mac/forward_commands.go:100-110 | serves the request as the sequential machine does, keeps file and registry consistent, rejects without effect when not ready; a failed request changed anything iff it is a saved remove whose Close failed |
| LiveForwards.Daemon.RegisterForwarder | launcher/mac/forwarding.go:302-306 | hands the listener in flight to the registry |
| LiveForwards.Daemon.CloseForwarders | launcher/mac/forward_commands.go:213-222 | ends with an empty registry, no bound listener, not ready and stopping |
| LiveForwards.Daemon.StartForwards | launcher/mac/main.go:1435-1463 | either every start-up spec is live on 127.0.0.1 with its settings and the states to publish are the registry's, or no listener is left; the former iff the ports on offer are those asked for and pairwise different |
| ForwardProtocol.PublishedStateIsCurrent | launcher/mac/forward_commands.go:100-192 | in every interleaving, ready and lock free imply that vm-state.json carries exactly the live mappings and start-up's other keys |
| ForwardProtocol.ListenersAreConserved | launcher/mac/main.go:1437-1505 | at every lock release the bound listeners are the registry's plus at most one held by start-up |
| ForwardProtocol.NothingOutlivesTheDaemon | launcher/mac/main.go:1435-1519 | when runVMDaemon has returned or the process has exited, every listener ever bound is closed |
| ForwardProtocol.LiveListenersAreSound | launcher/mac/forwarding.go:79-103 | in every reachable state listeners have distinct endpoints, nonzero ports that are the requested ones unless zero was asked for, and addresses of the form 127.b.c.d or ::1 |
| ForwardProtocol.RepeatedNameLosesAListener | launcher/mac/main.go:1439-1463 | a run showing that conservation fails without distinct start-up names |
| ForwardProtocol.ServiceIsSequential | launcher/mac/forward_commands.go:100-161 | every run is a legal history of the sequential machine that ends in the current state and holds each finished request once with its response |
| ForwardProtocol.RequestsTakeEffectWhilePending | launcher/mac/forward_commands.go:100-110 | a request enters that history in the step that ends it, between arrival and response |
| ForwardProtocol.DecideServes | launcher/mac/forward_commands.go:113-158 | the decision the code takes on formatted and parsed text is one the sequential machine allows; it goes ahead with an add iff that is admissible under a new name, and with a remove iff the name is registered |
| ForwardProtocol.ShutdownIsFinal | launcher/mac/forward_commands.go:213-222 | once closeForwarders has begun the service is never ready again and every request that finishes later fails |
| ForwardProtocol.StoppedHandlerOnlyFails | launcher/mac/forward_commands.go:100-105 | from then on no handler step changes registry, listeners or file |
| ForwardProtocol.StoppedRegistryIsLateStartup | launcher/mac/main.go:1439-1463 | the registry then holds exactly what start-up registered after the last closeForwarders |
| ForwardProtocol.StaysEmptyIffStartupIsDone | launcher/mac/main.go:1439-1463 | in every reachable state after shutdown began with the lock free, the registry is and stays empty in every continuation iff it is empty and start-up has no forward left to register |
| ForwardProtocol.SignalDuringStartup | launcher/mac/main.go:1337-1463 | a run that ends shut down with a registered forward |
| ForwardProtocol.HolderMakesProgress | launcher/mac/forward_commands.go:100-222 | the holder of the lock can always move, and each of its steps brings the release closer |
| DaemonLifetime.OnlyTheGatePublishes | launcher/mac/main.go:1466-1505 | on every run from the beginning, vm-state.json is published and the service ready only if the SSH gate was passed |
| DaemonLifetime.FailedGateKeepsForwards | launcher/mac/main.go:1466-1484 | a failed gate leaves all forwards in place and the daemon up |
| DaemonLifetime.FailedStartLeaves | launcher/mac/main.go:1439-1502 | after a start-up forward that cannot be bound, or a failed publication, the daemon is on its way out in every continuation |
| DaemonLifetime.EveryRequestCanBeAnswered | launcher/mac/forward_commands.go:100-110 | a request can arrive in every reachable state, start-up and shutdown included, and be answered |
| DaemonLifetime.DaemonCanEnd | launcher/mac/main.go:1337-1519 | from every reachable state runVMDaemon can still return and a signal can still end the process, and every listener is closed then |
| ForwardProtocol.StepKeepsInv | launcher/mac/main.go:1337-1519 | every step of every party keeps the protocol invariant |
| ForwardProtocol.ReachableInv | launcher/mac/main.go:1337-1519 | the invariant holds in every reachable state |
| ForwarderShutdown.CloseDrains | launcher/mac/forwarding.go:155-218 | when any Close call has returned, the listener and every client and guest connection are closed and accept loop, proxies and copiers have ended |
| ForwarderShutdown.CloseReportsTheListener | launcher/mac/forwarding.go:155-167 | over every run, a returned Close call reports an error iff closing the listener failed |
| ForwarderShutdown.OnlyCallbacksRemain | launcher/mac/forwarding.go:155-218 | all that can still happen then are Close calls and released AfterFunc callbacks on sockets that are closed already |
| ForwarderShutdown.DrainedForever | launcher/mac/forwarding.go:155-218 | whatever happens afterwards, no accept loop, proxy or copier starts or moves and no socket reopens |
| ForwarderShutdown.CounterIsLiveGoroutines | launcher/mac/forwarding.go:169-187 | the WaitGroup counts exactly the live goroutines, and Add only happens while it is positive |
| ForwarderShutdown.ClientsAreServed | launcher/mac/forwarding.go:169-218 | while the listener is open every client can be accepted and forwarded, next to all others |
| ForwarderShutdown.ConnectionsStayOpen | launcher/mac/forwarding.go:188-218 | without Close neither side of a connection is closed while both are being copied |
| ForwarderShutdown.EndedConnectionFinishes | launcher/mac/forwarding.go:188-218 | once a copy has ended or the dial has failed, the connection ends by itself with both sockets closed |
| ForwarderShutdown.OutsideEvents | launcher/mac/forwarding.go:155-218 | dials, copies and closing the listener may come out either way at any time, and cancellation closes both sides |
| ForwarderShutdown.AcceptErrorsPass | launcher/mac/forwarding.go:172-180 | an Accept error while the listener is open leaves the accept loop as it was |
| ForwarderShutdown.StopIsInTime | launcher/mac/forwarding.go:192-205 | stop() prevents an AfterFunc callback exactly as long as the context is not cancelled |
| ForwarderShutdown.CloseIsNeverStuck | launcher/mac/forwarding.go:155-218 | as long as some Close call has not returned, some goroutine can move without outside help |
| ForwarderShutdown.ClosingStepDecreases | launcher/mac/forwarding.go:155-218 | once the listener is closed every step except a new Close call decreases a rank |
| ForwarderShutdown.ClosingRunIsBounded | launcher/mac/forwarding.go:155-218 | no schedule takes more steps than the rank |
| ForwarderShutdown.CloseTerminates | launcher/mac/forwarding.go:155-218 | from any state with the listener closed, goroutine steps alone lead to every Close call returned and everything drained |
| ForwarderShutdown.ReachableInv | launcher/mac/forwarding.go:155-218 | the invariant of all goroutines, counter and sync.Once holds in every reachable state |
| ShellQuoting.RemoteCommandRoundTrip | launcher/mac/main.go:229-240 | for every argument list a POSIX shell reads back exactly the arguments, with every character quoted |
| ShellQuoting.QuotedBodyReads | launcher/mac/main.go:229-231 | inside the quotes the escaped text reads as the value, character by character |
| ShellQuoting.RemoteCommandInjective | launcher/mac/main.go:233-240 | different argument lists print different commands |
| ShellQuoting.RemoteCommand | launcher/mac/main.go:233-240 | the loop prints a command that the shell reads back as the arguments |
| StartHandshake.VerdictIsTrue | launcher/mac/main.go:909-1064 | whatever earlier runs left behind, each verdict of startCmd is backed by what the launched daemon did or by a failure of waiting for it, and a daemon never leaves both files |
| StartHandshake.VerdictIsFinal | launcher/mac/main.go:1032-1064 | a verdict never changes |
| StartHandshake.VerdictIsReached | launcher/mac/main.go:843-1064 | one interval after the deadline at the latest, a verdict needs only the launcher's own steps |
| StartHandshake.Polls | launcher/mac/main.go:843-852 | the next look at a file is never more than 200 ms away |
| StartHandshake.PublishedIsStarted | launcher/mac/main.go:988-1051 | a published vm-state.json found by the next look in time is reported as success |
| StartHandshake.MarkedIsDegraded | launcher/mac/main.go:996-1060 | a complete degraded marker found by the next look in time is reported as a degraded start |
| StartHandshake.EndedIsReported | launcher/mac/main.go:1014-1063 | an ended daemon, and a failed wait, are reported as that at any time |
| StartHandshake.TimeOutTakesFourMinutes | launcher/mac/main.go:939-941 | a time-out is reported no earlier than four minutes after the launch |
| StartHandshake.FailedPreparation | launcher/mac/main.go:884-934 | a preparation that fails ends the start without a daemon |
| StartHandshake.DaemonFailures | launcher/mac/main.go:1467-1505 | a daemon that cannot publish ends, one that cannot write its marker stays up |
| StartHandshake.GoodStart | launcher/mac/main.go:909-1051 | whatever was there before, every start can end in success |
| StartHandshake.DegradedStart | launcher/mac/main.go:909-1060 | and every start can end degraded |
| StartHandshake.DyingStart | launcher/mac/main.go:1014-1063 | a daemon that dies, however far it has come, can be reported as that |
| StartHandshake.IdleStart | launcher/mac/main.go:939-1041 | a start whose daemon does nothing times out after four minutes |
| StartHandshake.StepKeepsInv | launcher/mac/main.go:1466-1505 | every step of launcher, monitors and daemon keeps the handshake invariant |
| StartHandshake.PollUntil | launcher/mac/main.go:843-852 | terminates with at most one check per started interval, true iff its last check succeeded, false only after the deadline |
| SshWait.Try | launcher/mac/main.go:354-382 | one turn ends in time, greets iff the banner arrives within the allowances, gives up iff a timely connection takes no read deadline, and otherwise uses at least a second or the rest of the time |
| SshWait.WaitForSSHService | launcher/mac/main.go:344-404 | ends by the deadline with at most one attempt per started second and no break between attempts, succeeds iff its last attempt is greeted in time, gives up early iff that attempt takes no read deadline, otherwise uses the whole timeout |
| InitOutput.EarlyLookAgrees | launcher/mac/main.go:416-436 | looking at a prefix of the log yields nothing or what the whole log yields |
| InitOutput.CrossesIffOverlapping | launcher/mac/main.go:427-436 | the slice bounds cross iff the end marker begins in the trailing `===` of the first start marker |
| InitOutput.CrossingExample | launcher/mac/main.go:427-436 | a log for which they cross |
| InitOutput.ExtractsTheFirstBlock | launcher/mac/main.go:427-436 | something is extracted iff the log holds a complete block and the bounds do not cross, and it is the trimmed text between the first start marker and the first end marker after it; with the newline the init script prints they never cross |
| InitOutput.VerdictMeans | launcher/mac/main.go:438-452 | an address comes out iff the extracted text decodes to it, an error iff it does not, a panic iff the bounds cross |
| InitOutput.WaitForInitOutput | launcher/mac/main.go:406-456 | however polls fall, the outcome is that of the complete log or a time-out after polls that saw nothing |
| DataDisk.SizeBytesIsExact | launcher/mac/main.go:764 | the 64-bit byte count is right iff the size is below 2^33 GiB |
| DataDisk.SizeBytesWraps | launcher/mac/main.go:764 | for every size the 64-bit product counts the size modulo 2^34 GiB, around zero |
| DataDisk.FlooredGuardIsExact | launcher/mac/main.go:1771-1776 | comparing with whole GiB rounded down decides the comparison in bytes |
| DataDisk.HostDisk.CreateSparseDataDisk | launcher/mac/main.go:322-342 | succeeds iff the counted size is not negative and no call fails, then leaving a zero-filled image of that size |
| DataDisk.HostDisk.EnsureDataDisk | launcher/mac/main.go:760-801 | an existing image stays a prefix for every size; it succeeds iff the counted size is not below the current one and no needed call fails; success leaves the requested size iff it is below the limit |
| DataDisk.HostDisk.ResizeDataDisk | launcher/mac/main.go:1747-1795 | for every size, accepted iff it exceeds the current bytes, its counted size is not negative, the VM is stopped and no call fails; below the limit every byte is kept and the requested size left, above it never |
| DataDisk.OversizedResizeEmptiesTheDisk | launcher/mac/main.go:1786-1789 | a resize of any disk to 2^34 GiB succeeds and leaves an empty image |
| DataDisk.FindDataDisk | container/format-data-disk.initd.sh:13-31 | finds the first whole device without partitions, or none |
| DataDisk.BootIsSafe | container/format-data-disk.initd.sh:60-108 | mkfs runs iff there is no valid superblock and blkid reports nothing or ext4; otherwise every byte outside the superblock is kept; a valid superblock stays valid, the size stays, success leaves the expected label |
| DataDisk.BootReports | container/format-data-disk.initd.sh:60-108 | which of the six results is reported, each iff its condition on the label, blkid, e2label and mkfs.ext4, and that refusals leave the disk unchanged |
| DataDisk.GuestDisk.Start | container/format-data-disk.initd.sh:33-109 | computes the outcome and the disk that BootIsSafe and BootReports speak of, for every label found and every result of e2label and mkfs |
| DataDisk.DiskNeverShrinks | launcher/mac/main.go:760-801 | over every sequence of starts, resizes below the limit, boots and guest use an existing disk never gets smaller, formatted or not |
| DataDisk.HostOnlyAppends | launcher/mac/main.go:1747-1795 | over every sequence of starts and resizes below the limit the old bytes stay a prefix, formatted or not |
| DataDisk.FormattedDiskIsSafe | container/format-data-disk.initd.sh:60-108 | over every sequence of starts, resizes below the limit, boots and guest use, a disk with a valid superblock is never formatted and never shrinks, and without guest writes keeps every byte outside the superblock |
| DataDisk.FormattedOnce | container/format-data-disk.initd.sh:60-108 | after one successful format mkfs is never started again |
| CopyrightHeaders.BreaksListed | tools/copyright_headers.py:152 | the line boundaries are those of str.splitlines |
| CopyrightHeaders.SplitLinesConcat | tools/copyright_headers.py:152 | splitlines distributes over concatenation at line boundaries |
| CopyrightHeaders.ConcatSplit | tools/copyright_headers.py:152-159 | joining the lines gives the text back |
| CopyrightHeaders.CheckCharacterised | tools/copyright_headers.py:139-148 | a file passes the check iff each of the two phrases stands in one of the eight lines from the one after the shebang on |
| CopyrightHeaders.AddHeader | tools/copyright_headers.py:151-159 | the loop that deletes and splices the list computes shebang, header, remainder |
| CopyrightHeaders.AddedKeepsTheText | tools/copyright_headers.py:135-159 | the output is the text with only the blank lines after the shebang, or at the top, replaced by the two comment lines in the file's style and a blank line |
| CopyrightHeaders.BlankListed | tools/copyright_headers.py:155 | a blank line is one of characters that str.strip removes |
| CopyrightHeaders.AddedIsFound | tools/copyright_headers.py:145-159 | unless the file is a lone unterminated shebang, the added header is found after splitting again |
| CopyrightHeaders.LoneShebangSwallowsHeader | tools/copyright_headers.py:139-159 | for a lone unterminated shebang it is not |
| CopyrightHeaders.FixThenCheck | tools/copyright_headers.py:198-204 | the check passes after a fix iff it passed before or the file is not a lone unterminated shebang |
| CopyrightHeaders.FixIsIdempotent | tools/copyright_headers.py:198-204 | a second fix changes nothing under the same condition only, and two fixes always suffice |
| CopyrightHeaders.Repository.Check | tools/copyright_headers.py:181-195 | lists exactly the candidates without a header, in order and as often as they are listed |
| CopyrightHeaders.MissingInOrder | tools/copyright_headers.py:181-195 | the files without a header are listed in the order of the candidates |
| CopyrightHeaders.Repository.Fix | tools/copyright_headers.py:198-212 | every candidate, repeated ones included, ends up fixed and no other file is touched |

## Left out

- `net.ParseIP`: which texts are which addresses is a parameter; what is modelled is whether the result is a loopback address and, if so, its normal form.
- JSON bytes: a published document is a map of keys; `saveForwardState` on text that does not decode, or decodes to `null`, is modelled as those two cases.
- ForwardProtocol.PublishedStateIsCurrent: assumes that nobody but the launcher writes `vm-state.json` after `start` removed the stale one.
- StateFile.WriteVMState: a crash of the process between two steps can leave a temporary file; only returns are covered.
- ForwardProtocol.HolderMakesProgress: says that a held lock is released, not that a waiting party gets it next; Go's mutex fairness is not modelled.
- ForwarderShutdown.CloseTerminates: starts once the listener is closed; the two steps before that are always possible but need the scheduler to run them.
- Readers of the registry (`forwarderSnapshot`, `probeForwarders`, `Probe`, `classifyDialErr`): they change nothing.
- The bytes copied by `proxyConnection`: the two copy directions are modelled by when they may and must return.
- SshWait.WaitForSSHService: the first read is modelled as one call; a banner split over several reads is rejected, as in the code.
- InitOutput.WaitForInitOutput: JSON decoding and the address check of the extracted text are one parameter.
- DataDisk.GuestDisk.Start: `dumpe2fs` is a function of the superblock bytes, a successful `e2label` or `mkfs.ext4` leaves the expected label and a failed `e2label` leaves the disk alone; the absence of any data disk is covered by `FindDataDisk` returning none.
- DataDisk.FormattedDiskIsSafe: the guest's own use of a mounted file system is assumed to keep its superblock valid.
- StartHandshake: the running-check, asset refresh and disk step of `startCmd` are one step that may fail, and two racing `start` invocations in one directory are not covered, as the code does not promise anything about them.
- The header tool's choice of candidate files and comment styles (`candidate_files`, `detect_comment_style`): candidates and styles are parameters.
- Virtual-machine configuration, key generation, archive extraction, guest-clock synchronisation, `stop` and the log tailer: calls into libraries or I/O without further logic.
