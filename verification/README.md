# unix-ancillary: a verified model

unix-ancillary passes file descriptors over Unix sockets. This project models its three hard parts in
Dafny 4.11 and proves what the crate promises about them:

- the control-message codec: an in-place encoder into caller storage and a byte parser that must cope
  with arbitrary, truncated and lying input;
- descriptor ownership: every descriptor the kernel installs is owned exactly once, closed at most once
  and lost on no path, through the low-level buffer, its iterators and the convenience receives;
- stream completion: `send_fds_all`, blocking and async, against short writes, interruptions,
  cancellation and other writers.

`dafny verify dfyconfig.toml` checks everything.

## Modules

| file | content |
|---|---|
| `Wrappers.dfy`, `Bytes.dfy` | results and errors; native-endian integers as bytes |
| `Layout.dfy` | target parameters, `CMSG_LEN`/`CMSG_SPACE`, size guards |
| `Control.dfy` | parser and encoder on real bytes, truncation, round trip |
| `Payload.dfy` | rights, pidfds, credentials; the buffer slots they come from |
| `Kernel.dfy` | descriptor table, scripted `recvmsg` and `fcntl`, the environment contract |
| `Receive.dfy`, `ReceiveProofs.dfy` | parser loop, taking ownership, close-on-exec, convenience and polled receive; what they guarantee |
| `ReceiveOutcomes.dfy` | what each kind of receive reports for each thing the kernel can do |
| `AncillaryBuffer.dfy` | `SocketAncillary`, `Messages`, `ScmRights` as classes |
| `Session.dfy`, `Client.dfy` | every run of operations on one buffer; the same runs on the real objects |
| `Stream.dfy`, `Channel.dfy` | `send_fds_all`, blocking and async, as loops and step by step; every kernel script; many writers and a receiving process on one connection |
| `EndToEnd.dfy` | from `send_fds_all` to `recv_core`, `cmsg_recvmsg` and `cmsg_recvmsg_peek`: conservation, where descriptors arrive, who owns them, what a peek foretells |

## How it is modelled

Code that updates state is a method or class with loops and `modifies` clauses, proved equal to a
function of the old state; the lemmas about runs are stated over those functions. Rust drops are
explicit `Drop` methods and closing loops. One layout parameter (`Target`) covers Linux (8-byte length,
16-byte header), Apple and 32-bit Linux (4-byte length, 12-byte header) and FreeBSD amd64 (12-byte struct, `CMSG_LEN(0)`
of 16), in both byte orders.

System calls read an arbitrary finite script; a statement about every script is a statement about every
kernel behaviour within this contract, which is assumed and not proved:

- a receive stays within the storage it is given, its control bytes are a prefix of a well-formed
  encoding, and the descriptors whose bytes were copied whole are exactly the ones installed, under
  fresh and pairwise distinct numbers (`Kernel.Admissible`, `Kernel.Installed`);
- MSG_CTRUNC is raised when message data did not fit;
- a send's control bytes mean to the kernel what they mean to the crate's parser
  (`Stream.StreamSocket.Sendmsg`);
- a stream send accepts at most the bytes offered, a failed or empty one queues nothing, and descriptors
  ride the first byte of their send;
- a stream receive delivers the front of the queue, stops short of a second descriptor-bearing segment,
  delivers that segment's descriptors one for one, or fewer of them under MSG_CTRUNC, and never sets
  MSG_TRUNC (`Channel.Matches`); a peek is delivered in the same way and leaves the queue as it is.

A scripted delivery outside the contract reads as an error, one that does not match the queue is no event
of a run, and an exhausted script reads as `WouldBlock` (receive) or a gone peer (send). The table counts
closes of numbers that are not open (`badCloses`), so a double close cannot hide.

## Model

| member | source | states |
|---|---|---|
| Bytes.NativeRoundTrip | src/ancillary.rs:356-363 | an integer field written in native order reads back, in either byte order, at any width it fits |
| Bytes.I32RoundTrip | src/ancillary.rs:123-128 | `to_ne_bytes` then `from_ne_bytes` is the identity on every i32, negatives included |
| Layout.CmsgSpace | src/ancillary.rs:84-91 | accepts exactly lengths up to `i32::MAX`; the accepted space holds header and payload, is aligned, wastes less than one alignment unit, and the u32 macro has not wrapped |
| Layout.SpaceMonotone | src/ancillary.rs:301-306 | a larger payload never needs less space |
| Layout.ClampNofile | src/platform.rs:97-104 | the receive budget lies between 253 and 2^20: a limit in that range is kept, a smaller one gives 253, a larger, unlimited or unrepresentable one 2^20 |
| Layout.RightsSizeIsExact | src/ancillary.rs:301-306 | the size exists exactly up to an `i32::MAX` payload and is the least aligned one that holds header and payload |
| Control.ParseInOrder | src/ancillary.rs:150-178 | on arbitrary bytes the data slices are in bounds and in order, with a whole header before each, so no two overlap |
| Control.ParseEnds | src/ancillary.rs:154-166 | parsing ends exactly where no whole header is left or the length claimed is less than `CMSG_LEN(0)` |
| Control.ParseStepIsExact | src/ancillary.rs:152-177 | on arbitrary bytes: which level, type and data the first message has, and at which place parsing goes on |
| Control.ParseReadsBuffer | src/ancillary.rs:168 | every data slice is the buffer's bytes at its offset |
| Control.ParseCountBound | src/ancillary.rs:154-171 | messages times header length never exceeds the buffer, whatever lengths the headers claim |
| Control.TruncationIsClipping | src/ancillary.rs:152-177 | for every byte string and cut, parsing the cut buffer is exactly the parse of the whole one clipped at the cut |
| Control.PaddingCutLosesNothing | src/ancillary.rs:168-171 | a cut behind the last data byte changes nothing |
| Control.ParseEncode | src/ancillary.rs:332-365 | parsing an encoding returns every message at its place and nothing else |
| Payload.FdsRoundTrip | src/ancillary.rs:383-386 | encoded descriptor lists read back unchanged |
| Payload.CredentialsRoundTrip | src/ancillary.rs:317-329 | encoded credentials read back unchanged |
| Payload.LinuxBytesOfOneDescriptor | src/ancillary.rs:346-364 | the exact 24 bytes of a one-descriptor message on x86-64 Linux |
| Payload.LinuxBytesOfCredentials | src/ancillary.rs:317-364 | the exact 32 bytes of a credentials message on x86-64 Linux, and `buffer_size_for_credentials` of 32 |
| Payload.S390xBytesOfOneDescriptor | src/ancillary.rs:346-364 | the exact bytes of a one-descriptor message on big-endian Linux |
| Payload.FreeBsdBytesOfOneDescriptor | src/ancillary.rs:346-364 | the same where the header struct is shorter than `CMSG_LEN(0)` |
| Payload.AppleBytesOfOneDescriptor | src/ancillary.rs:346-364 | the same with four-byte lengths and alignment |
| Payload.DescriptorsAreExact | src/ancillary.rs:122-128 | of any payload, exactly the non-negative numbers among its whole four-byte chunks are descriptors, in order |
| Payload.KindsAreExact | src/ancillary.rs:185-227 | descriptors are owned out of `SCM_RIGHTS` alone and closed out of Linux's `SCM_PIDFD` alone |
| Payload.EntriesAreExact | src/ancillary.rs:205-227 | one entry for each rights message and each whole credentials message, in order and with the values its bytes spell, and none for any other level or kind |
| Payload.CredentialsAreSlots | src/ancillary.rs:131-142 | the credentials handed out are exactly the credential values of the buffer, in order |
| Payload.EachSlotReadsItsBytes | src/ancillary.rs:123-142 | every descriptor and credential taken from a buffer is what stands at its place, on any input |
| Payload.FlatRefinesMessages | src/ancillary.rs:205-266 | the flat list of `take_fds` is the message list of `take_received_into` flattened, on any input |
| Payload.EachSlotReadOnce | src/ancillary.rs:123-142 | no byte of any buffer is read as part of two values, across rights, pidfds and credentials |
| Payload.TruncationKeepsWholeSlots | src/ancillary.rs:456-493 | a cut keeps exactly the values whose bytes survive whole, so partial descriptors and partial credentials never appear |
| Payload.TruncatedDescriptorsArePrefix | src/ancillary.rs:162-168 | the descriptors of a cut buffer are a prefix of those of the whole one |
| Kernel.CloseOwned | src/ancillary.rs:27-42 | dropping distinct open descriptors closes each once and touches nothing else |
| Kernel.ParserFindsInstalled | src/ancillary.rs:199-227 | the parser finds in a delivery exactly the descriptors the kernel installed, also in a truncated one |
| Kernel.CompleteDelivery | src/cmsg.rs:88-94 | without MSG_CTRUNC the parsed messages are the ones sent |
| Receive.RawMessages.Next | src/ancillary.rs:152-177 | yields the next message of the specification, or ends; the remainder strictly shrinks |
| Receive.TakeReceivedInto | src/ancillary.rs:205-227 | owns every right message by message, returns whole credentials, closes every pidfd |
| Receive.TakeFds | src/ancillary.rs:243-266 | owns every right in one list and closes the same pidfds; the first-pass count is the list's length |
| Receive.CloexecFds | src/platform.rs:64-70 | flags descriptors in order up to the first fcntl failure |
| Receive.CloexecReceived | src/platform.rs:54-61 | the nested form does to the table exactly what the flat form does on the flattened list |
| Receive.RecvmsgRaw | src/cmsg.rs:59-95 | retries interruptions only; on success the buffer starts with the control bytes, otherwise it is unchanged |
| Receive.RecvFds | src/cmsg.rs:102-114 | ownership before flagging; a flagging failure closes the batch |
| Receive.RecvCore | src/ext.rs:145-205 | budget, receive, both truncation checks and the count policy, in the source's order |
| Receive.RecvOwned | src/ext.rs:127-142 | the data buffer is taken and cut on success and left in place on error |
| Receive.RecvAsync | src/asyncio.rs:171-182 | polls again exactly while the attempt would block |
| ReceiveOutcomes.RecvRawDecides | src/cmsg.rs:74-86 | the first outcome that is no interruption is the result and nothing behind it is read: a kernel error as it is with nothing touched, a delivery with its descriptors open |
| ReceiveOutcomes.KernelErrorIsReported | src/ext.rs:163-163 | a kernel error is what `recv_core` and the owned receive report, with buffers and table as before |
| ReceiveOutcomes.KernelErrorLeavesNothing | src/lib.rs:184-186 | the same for the low-level receive: the old batch closed, nothing received, receive mode set |
| ReceiveOutcomes.DeliveryIsTaken | src/ext.rs:163-163 | a delivery is the one the convenience receives work on |
| ReceiveOutcomes.TooManyPanics | src/ext.rs:151-152 | a request no control size exists for panics before any system call |
| ReceiveOutcomes.FaultIsExact | src/platform.rs:36-50 | flagging reports the errno of the first fcntl call that fails, from either of the two, and nothing otherwise |
| ReceiveOutcomes.RecvCoreReports | src/ext.rs:165-203 | the whole result for a delivery: flagging error; `InvalidData` for control truncation, datagram truncation or a wrong exact count; else bytes, the first `n` descriptors in order and the surplus count; the receive buffer starts with the data |
| ReceiveOutcomes.RecvOwnedReports | src/ext.rs:127-142 | the same for the owned receive, with exactly the payload |
| ReceiveOutcomes.RecvOwnedAccounts | src/ext.rs:127-142 | Ok exactly when the checks pass; then its descriptors are the first ones sent, new, distinct and flagged, and the others closed and counted; every error leaves the open descriptors as they were |
| ReceiveOutcomes.RecvPolledAccounts | src/asyncio.rs:171-182 | the same for any polled receive: it is one attempt, on a process in which the calls before changed nothing but the script |
| ReceiveOutcomes.PolledErrorIsReported | src/asyncio.rs:171-182 | after any mix of EINTR and WouldBlock the first other error is reported, and `WouldBlock` only when polls run out |
| ReceiveOutcomes.ReceptionReports | src/lib.rs:178-207 | the whole result of a low-level receive: flagging error with nothing left, else both truncation flags and byte count, and a buffer that holds exactly the descriptors, credentials and entries whose bytes arrived, also for truncated deliveries, pidfds and foreign messages |
| ReceiveProofs.RecvFdsAccounts | src/cmsg.rs:102-114 | success: exactly the installed rights are new, distinct and flagged; failure at any point of flagging: the table is as before |
| ReceiveProofs.CloexecAllKeepsOpen | src/platform.rs:52-70 | flagging opens and closes nothing; success flags every descriptor of the batch |
| ReceiveProofs.CloexecAllReports | src/platform.rs:36-70 | it reports the first failure among the fcntl calls for the batch, and success when there is none |
| ReceiveProofs.RecvCoreAccounts | src/ext.rs:163-204 | Ok returns the first `n` descriptors sent, in order, closes and counts the rest; every error leaves all delivered descriptors closed; `Exact(n)` is Ok only for `n` |
| ReceiveProofs.RecvCoreAcceptsExactly | src/ext.rs:165-203 | Ok if and only if something was delivered, neither truncation flag that matters is set, the count is allowed and no flagging call for the batch fails |
| ReceiveProofs.CoreFollowsPolicy | src/ext.rs:165-203 | once something is delivered the result is determined: the first flagging failure, else the policy on the descriptors as sent: which are returned, how many closed as surplus, `InvalidData` for truncation or a wrong exact count |
| ReceiveProofs.BudgetDefined | src/ext.rs:151-161 | when the control size exists, and which size it is |
| ReceiveProofs.DefaultBudgetIsDefined | src/platform.rs:84-117 | asking for no more than the platform budget never panics |
| ReceiveProofs.BudgetSuffices | src/ext.rs:151-161 | one rights message within the budget plus credentials, in either order, always fits |
| ReceiveProofs.ExactReceiveOfPlannedMessage | tests/credentials.rs:117-135 | a kernel that cuts control data only for want of space (`Kernel.CutsOnlyForSpace`) delivers such a message whole, and `Exact` of its count returns all of it, unless flagging fails or a datagram payload is cut |
| ReceiveProofs.RetriesAreInvisible | src/asyncio.rs:3-9 | any mix of EINTR and WouldBlock before a delivery ends in the state and result of one attempt |
| ReceiveProofs.DataBufferStaysForRetry | src/ext.rs:125-142 | the data buffer keeps its length on every error, and nothing at all changes when the receive would block |
| AncillaryBuffer.SocketAncillary.ReserveCmsg | src/ancillary.rs:332-365 | succeeds exactly in send mode when the space fits; writes header and zeros in place, or nothing |
| AncillaryBuffer.SocketAncillary.AddRights | src/ancillary.rs:369-388 | the used bytes grow by exactly the encoding of the list; refused or empty additions change nothing |
| AncillaryBuffer.SocketAncillary.AddCredentials | src/ancillary.rs:317-329 | the same for credentials |
| AncillaryBuffer.SocketAncillary.TakeMessages | src/ancillary.rs:411-415 | drains what was received into an iterator, once |
| AncillaryBuffer.SocketAncillary.Clear | src/ancillary.rs:427-432 | closes unread descriptors and returns to send mode |
| AncillaryBuffer.ScmRights.Next | src/ancillary.rs:34-42 | yields each descriptor once, in order |
| AncillaryBuffer.ScmRights.Drop | src/ancillary.rs:27-32 | closes every descriptor not yielded |
| AncillaryBuffer.Messages.Next | src/ancillary.rs:65-77 | moves the next message, with its descriptors, out of the iterator |
| AncillaryBuffer.Messages.Drop | src/ancillary.rs:60-63 | closes the descriptors of every message not yielded |
| AncillaryBuffer.RecvIntoAncillary | src/lib.rs:178-207 | the old batch is closed first; the new one is owned, then flagged; every failure leaves nothing received and receive mode set |
| Session.ReceiveKeepsHeld | src/lib.rs:178-207 | after a low-level receive the buffer holds exactly the new rights, or nothing; the previous batch is closed |
| Session.StepKeepsOwnership | src/ancillary.rs:268-276 | every operation keeps: open received descriptors are exactly those held, each by one owner |
| Session.EveryRunOwnsExactly | src/ancillary.rs:268-276 | the same over every run from any storage against every kernel script, with no close of a number not open |
| Session.OnlyTheCallersRemain | src/lib.rs:8-15 | after the final drops exactly the caller's descriptors remain open |
| Session.DrainedDescriptorsAreDistinct | src/lib.rs:163-176 | descriptors drained from any mix of peeks and receives are pairwise distinct |
| Session.SendBufferHoldsAdditions | src/ancillary.rs:332-407 | after any run a send-mode buffer sends exactly the encoding of its messages, which parses to exactly the successful non-empty additions since the last clear, each one a message that can be sent |
| Session.RefusedUntilClear | src/ancillary.rs:338-375 | in any run, a receive that succeeds or fails starts receive mode, and until the next `clear`, whatever else happens, sends are refused and every addition reports an error and changes nothing |
| Session.ClearEndsReceiveMode | src/ancillary.rs:427-432 | in any run, `clear` returns to an empty, untruncated send buffer with nothing received |
| Session.AdditionsArrive | src/lib.rs:186-206 | additions of one buffer, renumbered by the kernel and delivered whole, come out of another as the same messages under fresh distinct numbers, credentials unchanged; Ok if and only if no flagging call fails |
| Session.AddFdsNeedsExactly | src/ancillary.rs:301-306 | `buffer_size_for_rights(n)` is exactly the room `n` descriptors take |
| Session.AddCredentialsNeedsExactly | src/ancillary.rs:310-345 | credentials go in exactly when `buffer_size_for_credentials()` fits the room left, and take that much |
| Session.AddFdsIsTaken | src/ancillary.rs:369-388 | in any run an addition to a send buffer is recorded exactly when it fits; otherwise nothing changes, and an empty list is no error |
| Session.AddCredentialsIsTaken | src/ancillary.rs:317-329 | the same for credentials |
| Session.ComputedSizesHoldBoth | src/ancillary.rs:299-314 | a buffer of the two computed sizes takes a list and credentials in either order, is then full, and reads back as both |
| Session.DrainingKeepsOrder | src/ancillary.rs:27-77 | in any run, draining a buffer to the end gives the caller every received descriptor in the order received, and closes none |
| Client.Client.Do | src/ancillary.rs:286-433 | an operation on the real objects is the step the run theorems are about |
| Client.Execute | src/ancillary.rs:268-276 | any program over the objects holds exactly the open received descriptors |
| Stream.SendmsgVectored | src/cmsg.rs:22-55 | returns the first outcome that is not an interruption |
| Stream.SendDecides | src/cmsg.rs:45-54 | the first outcome that is no interruption is reported as it is and nothing behind it is read; accepted bytes are queued with the descriptors, no byte queues none |
| Stream.CmsgSendmsg | src/lib.rs:131-143 | refuses in receive mode before any system call, otherwise sends exactly the used control bytes |
| Stream.SendBytes | src/cmsg.rs:16-19 | the same without ancillary data |
| Stream.SendFdsImpl | src/ext.rs:77-93 | without descriptors a plain send; otherwise the kernel reads exactly the given descriptors from the control bytes; panics before any send if the size does not exist |
| Stream.SizedBufferTakesRights | src/ext.rs:86-91 | a buffer of the computed size takes the list, is then full, and reads back as the list |
| Stream.SendFdsAll | src/ext.rs:309-331 | the blocking loop is the task of single steps run to its end |
| Stream.SendFdsAllAsync | src/asyncio.rs:139-169 | the two awaits end in the wire and result of the stepped task, or, if the future is dropped at an await, in what it had queued by then |
| Stream.Poll | src/asyncio.rs:139-169 | one system call queues a consecutive piece of the payload and advances by its length |
| Stream.PollAccounts | src/asyncio.rs:139-169 | each call keeps: queued bytes are the first `sent` ones, descriptors on the first segment only |
| Channel.SendFdsAllDelivers | src/ext.rs:221-228 | for every kernel script: a prefix of the payload, the whole on Ok, descriptors on the first queued byte and nowhere else |
| Channel.ProgressCompletes | src/ext.rs:323-330 | once interruptions and short writes have made room for the payload the call is Ok, whatever the kernel would do next |
| Channel.FirstEndDecides | src/ext.rs:221-228 | otherwise the first step that is neither decides: `WriteZero` for no progress, the kernel's own error else; exactly what was accepted before stays sent |
| Channel.ExhaustedScript | src/ext.rs:315-328 | when neither happens the call ends with the peer gone, and reports it |
| Channel.ChecksComeFirst | src/ext.rs:309-331 | blocking and async: `InvalidInput` for descriptors without a byte, Ok for an empty send, a panic for a size that does not exist, all before any system call; every other call starts with nothing sent |
| Channel.AsyncProgressCompletes | src/asyncio.rs:157-168 | an async call ends Ok once interruptions, short writes and a kernel that is not ready have made room for the payload within the readiness signals given |
| Channel.AsyncFirstEndDecides | src/asyncio.rs:139-169 | otherwise the first other step decides: `WriteZero` or the kernel's own error; exactly what was accepted before stays sent |
| Channel.AsyncRunsOut | src/asyncio.rs:139-169 | when the signals run out first the call is dropped with exactly what was accepted |
| Channel.AsyncExhausted | src/asyncio.rs:139-169 | when neither happens the call ends with the peer gone, and reports it |
| Channel.CancelledOnlyByPolls | src/asyncio.rs:139-169 | and it is dropped in no other way |
| Channel.SendFdsAllAsyncDelivers | src/asyncio.rs:60-70 | however it ends: a prefix of the payload, the whole on Ok, descriptors on the first queued byte and nowhere else |
| Channel.DriveIsTurns | src/ext.rs:309-331 | a blocking call is a run of single turns in any connection, with the task, the queue and nothing else changed as the call says |
| Channel.AsyncIsTurns | src/asyncio.rs:139-169 | the same for an async call, with a cancellation where it is dropped |
| Channel.EveryWriterDeliversAPrefix | README.md:76-79 | any number of blocking and async writers, interleavings and cancellations: per writer a prefix of its payload, complete on Ok, descriptors once with its first byte |
| EndToEnd.ReceiveFollowsPolicy | src/ext.rs:145-205 | a convenience receive in a run is `recv_core` on the front of the queue: flagging failure, else the policy on the senders' batch, first descriptors kept in order under their new numbers; every error leaves the open descriptors as they were |
| EndToEnd.EveryRunConserves | README.md:76-79 | any senders, receives of both kinds and peeks: at every moment bytes and descriptors received, then those queued, are everything ever queued, in order; each receive and peek reports the truth about what it found |
| EndToEnd.EverySenderConserves | README.md:76-79 | for each sender on its own: bytes received, queued and unsent make up its payload, descriptors received, queued and not yet sent its list |
| EndToEnd.ListsArriveWhole | src/ext.rs:221-228 | with any number of senders, each list arrives whole and in order in the receive that takes its sender's first byte and in no other; a receive gets at most one list |
| EndToEnd.DescriptorsRideFirstByte | tests/partial_send.rs:38-50 | one sender: the first receive that gets a byte gets all descriptors, every other receive none, and the bytes received are the beginning of the payload |
| EndToEnd.DrainedCompletely | tests/partial_send.rs:38-50 | a completed send that has left the queue: its payload arrived once and whole, its list in one receive; if that one succeeded, what it returned, then what it closed as surplus, is the list in the order sent |
| EndToEnd.EveryDescriptorHasOneOwner | src/lib.rs:163-176 | in every run of peeks, receives of both kinds and any use of buffer and iterators: each open received descriptor has one owner, no close missed, and what lies in the buffer, was drained and was handed over is pairwise distinct and new |
| EndToEnd.EveryBatchIsFresh | src/lib.rs:163-176 | each peek or low-level receive brings in distinct numbers that no caller holds from an earlier peek or receive |
| EndToEnd.PeekForetellsReceive | src/lib.rs:163-176 | what `cmsg_recvmsg_peek` reported against the next receive of either kind and any size, whatever senders, peeks and uses of the buffer come between: the shorter is the beginning of the longer in bytes and descriptors, both reports are true, and without truncation the descriptor counts compare likewise |

## Left out

- Real system calls, errno values beyond those the code distinguishes, `msghdr` construction and socket options: the scripted kernel stands in for them.
- SIGPIPE suppression, `prepare_send` and `nosigpipe_error`: one branch and no lasting state.
- Pointer alignment, `with_control`'s stack storage and allocation counts: control storage is a zeroed byte array.
- Borrow lifetimes: send descriptors stay open, and the buffer is used only while no iterator over it lives (`Session.Usable`).
- `std::mem::forget` on an iterator, which leaks by design.
- Tokio's reactor: `async_io` is "run the closure again while it would block, or drop the task".
- Vectored and datagram wrappers, `send_fds` without completion, and `src/seqpacket.rs`: forwarding; payloads are one byte sequence and `SocketKind` selects the truncation rule.
- The error texts, and `src/credentials.rs` beyond the 12-byte record.
- The macOS fork race and kernel handling of descriptors omitted by truncation, which the crate documents as outside its control.
- The kernel's own half of a peek: that MSG_PEEK leaves the queue as it is is part of `Channel.DoLow`, not proved.
- Which open file a descriptor names: on a queue a descriptor is the sender's number, in the receiving process a fresh number; `Channel.Outcome` records both lists, and position ties one to the other.
- Callers of convenience receives closing what they were handed: in runs of a connection they keep it; the caller of the low-level iterators may close.
- Peer disconnect and end of stream as events of a run.
- Kernels that install no descriptors on peek: peeking is modelled as Linux does it, like any delivery, and `cmsg_recvmsg_peek` exists only there.
