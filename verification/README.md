# A model of tpm2-autoenroll and its proofs

tpm2-autoenroll answers systemd-cryptsetup when the TPM could not unlock a
volume. It acquires the passphrase, finds out whether the volume's TPM2 binding
is stale because the boot measurements moved, asks a person, re-enrolls, checks
what was written, and hands the passphrase over. This project models the two
parts where that is decided, and proves what they promise.

**The TPM client.** The wire codec (`wire.dfy`, `tpm2.dfy`) and the conversations
it carries (`tpm_client.dfy`) are imperative, as in `src/tpm2.rs`: a cursor over a
buffer, an output that is appended to, the two lists of `read_pcrs`. Each method
is proved equal to a function, and the theorems are about those functions. The
TPM is modelled twice. As an arbitrary byte source, a function from everything
sent so far to a reply, it can do anything: safety and termination hold all the
same. As a conforming device (`tpm_machine.dfy`), with registers, live sessions, a
limit on what one PCR_Read answers and a hash, it makes the results true ones.
The formats are those of the TPM 2.0 Library Specification, Part 3: section 22.4
(TPM2_PCR_Read), section 23.7 (TPM2_PolicyPCR), section 11.1
(TPM2_StartAuthSession) and section 28.4 (TPM2_FlushContext).

**The daemon.** A run is a record of events (`law.dfy`). `History` has the outside
world as oracles -- the signal, the clock, sockets, devices, prompts, answers,
enrollments, partial writes -- each free to answer differently at any moment.
`Law` says which event may come next, given everything before it. `Runs` proves
what follows for every lawful run, over every sequence of connections, verdicts,
answers and signal times. `daemon.dfy` is the daemon itself, step by step from
`serve` to `write_all`, proved to do nothing but what the law permits, to carry
every connection through, and to terminate. What the law demands is therefore
not an assumption about the daemon but a theorem about its code.

**Around them.** Tokens, preflight and repair (`token.dfy`, `preflight.dfy`), the
bounded collector of child output (`child.dfy`), the two escapers, the cgroup
match and the prompt's output (`escape.dfy`), the peer names (`bindname.dfy`), the
cache, the remembered decisions and the consent answer (`memory.dfy`,
`consent.dfy`). Two results that need all of it have files of their own: when a
refusal holds (`refusal.dfy`) and how often a device is enrolled (`resealing.dfy`).

Some facts are modelled as they are, although a reader might expect more:

- The bank in a PCR_Read response is ignored (`src/tpm2.rs:429`);
  `Tpm2.PcrReadOnlyPrinted` has it arbitrary.
- `absorb` refuses only adjacent repeats (`src/tpm2.rs:384`). That no register is
  taken twice also rests on the parser's ascending order, and is proved from both.
- The guard against the empty state covers refusals but not acceptances
  (`src/main.rs:709`, `src/main.rs:716`, `src/main.rs:736`). A refusal therefore holds
  exactly for non-empty states: `Refusal.RefusalExact` is the equivalence over all
  runs, `HollowTpm.EmptyStateArises` the input with which the empty state arises,
  `RefusalRun.RefusedAgain` the daemon asking again, and
  `HollowTpm.ConformingStateNotEmpty` says that a conforming TPM never gives it.
- A session can be released only once its handle has been decoded
  (`src/tpm2.rs:203`, `src/tpm2.rs:259`); `Sessions.PolicyDigestReleases` has that as
  a condition.
- Token indices come from JSON keys and are not known to be distinct
  (`src/token.rs:106`).
- No hash on unbounded input with fixed-size output is injective. The theorems on
  policies ask only that the hash does not collide on the inputs compared.

## Model

| member | source | states |
|---|---|---|
| Wire.BuildBitmap | src/tpm2.rs:476-490 | Whatever the order and repeats of the indices, the three octets built are the one bitmap for the set they name; an index past 23 is dropped |
| Bits.BitmapNames | src/tpm2.rs:476-490 | In that bitmap register `n` is selected by bit `n % 8` of octet `n / 8`, and nothing else is |
| Bits.BitmapFigures | src/tpm2.rs:476-490 | In figures: octet `n / 8`, divided by two to the power of `n % 8`, is odd exactly when register `n` is selected |
| Bits.BitmapUnique | src/tpm2.rs:476-490 | No other three octets select the same registers |
| Bits.PickedBitmap | src/tpm2.rs:431-443 | Scanning such a bitmap bit by bit gives back exactly the selected registers, ascending |
| Wire.Output.PutPcrSelection | src/tpm2.rs:468-490 | Appends one TPML_PCR_SELECTION for the set of indices and leaves what was written before alone |
| Wire.Reader.Bytes | src/tpm2.rs:492-517 | Reads exactly what a pure reader of the rest of the buffer would, or fails without moving; the cursor never passes the end |
| Wire.Reader.Tpm2b | src/tpm2.rs:533-537 | Same for a length-prefixed buffer |
| Wire.TakeWritten | src/tpm2.rs:460-537 | Reading a u32 or a TPM2B that was just written gives it back and leaves what follows |
| TpmClient.BuildCommand | src/tpm2.rs:278-286 | The bytes of a command are its header, with the length of the whole in it, and its body |
| TpmClient.CommandOctets | src/tpm2.rs:28-48 | Every command the client sends, octet by octet in figures: tag, size, code and parameters of GetCapability, PCR_Read, StartAuthSession, PolicyPCR, PolicyGetDigest and FlushContext, for every bank and selection |
| Tpm2.ResponsePayloadExact | src/tpm2.rs:288-310 | A response is accepted exactly when it is a success header declaring the response's own length, under any tag, followed by the payload returned |
| Tpm2.ResponseReadBack | src/tpm2.rs:288-310 | Any well-formed response gives its payload, or its response code if that is not zero |
| Tpm2.ParsePcrRead | src/tpm2.rs:413-458 | The loop over selections, bits and digests computes the decoding that the next two rows characterise, on every input |
| Tpm2.DecodeSelectionExact | src/tpm2.rs:429-443 | A selection bitmap is refused exactly when it has a bit past 23, and for the first such; otherwise it names the registers whose bits it has |
| Tpm2.PcrReadReadBack | src/tpm2.rs:413-458 | The parser undoes the printer: for every bank, every bitmap within 0..=23 and every digest list, whatever follows them; a bitmap outside is refused with its error |
| Tpm2.PcrReadOnlyPrinted | src/tpm2.rs:413-458 | And it accepts nothing but printed responses whose bitmap picks exactly the returned registers; the bank in them is arbitrary, for it is never looked at |
| Tpm2.ParseDigests | src/tpm2.rs:444-458 | The up-front reservation is bounded by half the bytes left, and on success is exactly the number of digests, so the list never grows past it |
| Tpm2.ParseProperties | src/tpm2.rs:329-360 | The loop over pairs computes the verdict that the next rows characterise, on every input |
| Tpm2.PropertiesReadBack | src/tpm2.rs:329-360 | Printing a property list and reading it gives the verdict on that list, whatever else it has and whatever follows it |
| Tpm2.LockoutExact | src/tpm2.rs:329-360 | That verdict: an error exactly when no entry has tag 0x200; otherwise in lockout exactly when the last value under it, divided by 512, is odd, with the last values under 0x20e and 0x20f, or zero, as counter and maximum |
| Tpm2.PropertiesOnlyPrinted | src/tpm2.rs:329-360 | And nothing but a printed list, under the capability asked for, gives a verdict |
| Repair.LockoutStops | src/preflight.rs:56-74 | A conforming TPM whose last TPM_PT_PERMANENT has that bit stops every repair, for that reason, and one whose last has it clear stops none for it |
| TpmClient.Progress.Absorb | src/tpm2.rs:372-398 | A usable round moves what it answers for from `remaining` to `out`, paired by position; a refused round changes nothing |
| TpmClient.RefusalExact | src/tpm2.rs:372-392 | A round is refused exactly when it is empty, or has another number of digests, or repeats a register next to itself, or names one that is not outstanding; and for the first of these |
| TpmClient.RoundUses | src/tpm2.rs:372-398 | Every usable round shortens the outstanding list, whatever the TPM sent |
| TpmClient.RoundUsable | src/tpm2.rs:372-398 | A usable round names outstanding registers only, ascending, at most 23, at least one, as many as digests, each paired with the digest at its own position |
| TpmClient.ReadRoundsPartition | src/tpm2.rs:172-190 | Invariant of the loop against an arbitrary TPM: what has been read and what is outstanding together are the request, as multisets, and there are no more rounds than registers outstanding |
| TpmClient.ReadPcrsSafe | src/tpm2.rs:172-190 | For any bytes in any round: at most as many rounds as distinct registers; success gives exactly the requested registers, ascending, once each, all at most 23, each with the digest of its own round and position |
| TpmClient.Tpm.ReadPcrRegisters | src/tpm2.rs:172-190 | The loop computes the reading those theorems are about and sends just those commands |
| TpmClient.Tpm.Transact | src/tpm2.rs:125-157 | One command is sent, and at most 4096 bytes of one response are looked at |
| TpmClient.Tpm.GetLockout | src/tpm2.rs:161-169 | One GetCapability, and the verdict of Tpm2.LockoutExact on what it brings |
| TpmClient.Tpm.BuildPcrPolicy | src/tpm2.rs:216-238 | PolicyPCR and then PolicyGetDigest on the session, stopping at the first that fails |
| TpmClient.Tpm.PcrPolicyDigest | src/tpm2.rs:202-214 | The whole conversation: the session is flushed on success and on every policy failure, and the flush does not change the result |
| Sessions.PolicyDigestReleases | src/tpm2.rs:202-271 | On any device that tracks sessions: at no point is more than one session added, and once the handle has been decoded and the flush has succeeded the live set is what it was |
| Sessions.RunsLeaveNoSession | src/tpm2.rs:202-271 | Over any run of lockout queries, readings and policy computations there is at most one session of the daemon's at any time and none at the end |
| TpmMachine.MachineTracks | src/tpm2.rs:202-271 | The conforming TPM is one of the devices the two session results are about |
| TpmMachine.ConformingRunsLeaveNoSession | src/tpm2.rs:202-271 | Against a conforming TPM the same holds of any run of requests with no condition at all, so repeated drift checks never use up its session slots |
| TpmMachine.ReadPcrsTrue | src/tpm2.rs:172-190 | Against a conforming TPM that answers any non-empty ascending part of the selection each round, reading any valid list gives the true value of each register, byte for byte through command and response |
| TpmMachine.PolicyDigestTrue | src/tpm2.rs:202-271 | With a session slot free the digest is the policy over the present values of exactly the given registers; with none free it is an error; the TPM is left as it was either way |
| TpmMachine.PolicyIs | src/tpm2.rs:216-238 | That policy in octets: the hash of 32 zeroes, 0x0000017f, the selection, and the hash of the selected registers ascending |
| TpmMachine.LockoutTrue | src/tpm2.rs:161-169 | The query gives the verdict on the TPM's own properties, which Repair.LockoutStops spells out, and leaves the TPM as it was |
| TpmMachine.PolicySame | src/drift.rs:49-79 | Two policies over one selection are equal exactly when all the selected registers are, unless the hash collides on the very inputs compared |
| Drift.DriftNeedsEvidence | src/drift.rs:49-79 | For devices that do not conform: Drifted takes a plain token, a non-empty selection and a digest the device reported that differs, and carries both; Matches takes a plain token with no registers or just that digest; a PIN, an advanced policy and any TPM error are Unknown |
| Drift.DriftExact | src/drift.rs:49-79 | On a conforming TPM: Matches exactly when every selected register has the value it was sealed over, Drifted exactly when one differs |
| Hex.Unhex | src/token.rs:206-218 | The loop over pairs computes the decoding the next row characterises |
| Hex.UnhexExact | src/token.rs:206-218 | A text decodes to some bytes exactly when it spells their digits in either case; in particular an odd length and any other character are refused |
| Hex.UnhexSpelled | src/token.rs:206-218 | In letters: two digits for each octet, the high one first, out of 0123456789abcdef or its capitals |
| Selections.ReadHeaderPcrs | src/token.rs:168-185 | The selection of a header as sorted and deduplicated, or the first thing wrong with the list |
| Selections.ReadConfigPcrs | src/config.rs:167-182 | The selection of a configuration by way of an ordered set, an empty one refused |
| Selections.SelectionExact | src/token.rs:168-185 | A selection is accepted exactly when it is a list of integers in 0..=23, a configured one when it is not empty as well, and is read as the ascending list of the registers it names |
| Selections.SelectionsAgree | src/token.rs:168-185 | A header list and a configuration list read as equal exactly when they name the same registers, whatever their order and repeats |
| Preflight.SameSelectionExact | src/preflight.rs:164-170 | A token agrees with a volume's configuration exactly when both name the same set of registers and the same bank, an absent bank meaning sha256 |
| Token.Parse | src/token.rs:93-113 | The loop over the entries computes the reading the next row characterises |
| Token.TokensExact | src/token.rs:93-113 | Reading fails exactly when some systemd-tpm2 entry does not decode, with the error of the first that does not; otherwise it gives, as a multiset, what exactly those entries decode to, ordered by index |
| Token.DecodeExact | src/token.rs:116-149 | A token decodes, and to these fields, exactly when its JSON entries say so: registers, bank, policy as one text or a list of one, PIN |
| Token.AdvancedExact | src/token.rs:154-166 | Its policy is plain exactly when every key is one of the fourteen known and none of the four fields of signed and pcrlock policies is there; otherwise which of the three kinds it is |
| Token.PinExact | src/token.rs:133-139 | It takes a PIN exactly when tpm2-pin is true or there is a tpm2_salt |
| Token.ParseU32Exact | src/token.rs:106-109 | A key is read as a number exactly when it is that number in decimal, after any zeroes and at most one plus sign, below 2^32 |
| Token.EntriesExact | src/token.rs:96-99 | The tokens are the entries of the object under tokens, and none if there is no such object |
| Preflight.MoreThanPlainStays | src/preflight.rs:103-108 | A header one of whose systemd-tpm2 tokens takes a PIN, has an unknown field, or one of a signed or pcrlock policy is never planned for repair, on any device |
| Preflight.ReenrollExactly | src/preflight.rs:49-131 | The conditions of a repair on which Runs.PlannedOnEvidence, Refusal and Resealing rest: one token, without PIN or advanced policy, for the configured and non-empty selection, a TPM that answers and is not in lockout, no host policy file, and a policy that differs from the token's -- all of them, and nothing else |
| Preflight.LeaveExactly | src/preflight.rs:49-131 | And when a header is left alone, for what, each reason under its own condition |
| Preflight.PolicyFilesAre | src/preflight.rs:91-100 | The host policy files searched for are these six and no other |
| Preflight.FirstPresent | src/preflight.rs:150-156 | None exactly when none of the searched files exists |
| Preflight.FindNewTokenExact | src/enroll.rs:128-140 | A token is taken for the new one exactly when it is the only one not at the old index |
| Preflight.VerifyExact | src/main.rs:772-840 | For any device, when each of the six verdicts on a repair is the one, in terms of the header as re-read, its one token off the old index, the configuration, the unseal and the digest the TPM reports |
| Preflight.GoodExact | src/main.rs:772-840 | So a repair is found good exactly when the header was read, its one token off the old index is plain and for the configured selection and bank, and it unseals or its policy is what the TPM has over the registers |
| Repair.VerdictFollowsRegisters | src/main.rs:819-838 | On a conforming TPM and without an unseal, the policy is found to match exactly when no selected register has moved since the token was sealed |
| Repair.EnrolledReadBack | src/token.rs:93-165 | What a conforming cryptenroll writes is read back as one plain token with the selection and the policy asked for |
| Repair.RepairHolds | src/main.rs:772-840 | Right after a conforming enrollment verification succeeds, with or without a token unseal, and the next preflight leaves the header alone |
| Repair.SealedStays | src/preflight.rs:49-131 | While the registers keep the values a header is sealed to, no preflight plans a repair, whatever the host files and the rest of the TPM's state |
| Repair.RewritesFollowChanges | src/preflight.rs:49-131 | Over any sequence of boots, whatever failed attempts leave behind, a volume is re-sealed at most once more than its registers change, and no more often than they change if it starts out sealed to them |
| Resealing.MovedBeforeAny | src/main.rs:660-766 | In every run on a conforming TPM, with headers that follow the enrollments: once an enrollment on a device succeeded, nothing is enrolled on it before a register of its selection has moved, whichever volumes share it and whatever failed before |
| Resealing.SuccessesFollowMoves | src/main.rs:660-766 | So the enrollments that succeed on a device in a run are at most one more than the moments at which its selection moved |
| Resealing.EnrolledOnce | src/main.rs:660-766 | And on a TPM that does not move there is at most one |
| Repair.CheckLeaves | src/preflight.rs:49-131 | No preflight changes anything on a conforming TPM |
| Child.Stream.Drain | src/child.rs:169-206 | One read brings more of the stream, or its end, which closes it, or is refused exactly when the buffer is full and there is more; an interruption changes nothing; the buffer never exceeds its capacity |
| Child.Assign | src/child.rs:141-147 | Each readiness flag lands on its own descriptor in all eight combinations of open ones |
| Child.Collect | src/child.rs:100-163 | Success means the child exited and both streams are complete, in order and within their bounds; too much means a stream really exceeds its bound; a timeout means the deadline passed although each stream was read whenever it was ready; on any clock that never goes back and reaches the deadline |
| Escape.CEscape | src/askpw.rs:122-143 | The loop computes the escaping the next row is about |
| Escape.EscapedReadBack | src/askpw.rs:122-143 | Every byte string is escaped to printable ASCII and recovered by unescaping |
| Escape.EscapedByteExact | src/askpw.rs:122-143 | What becomes of each octet: printable ones stay but for quotes and backslash; those and 0x07 to 0x0d have letters of their own; all others are hexadecimal |
| Escape.PathUnchanged | src/askpw.rs:116-121 | So a path without quotes, backslashes and unprintable octets is itself |
| Escape.UnitEscape | src/peer.rs:141-153 | The indexed loop computes the escaping the next row is about |
| Escape.UnitEscapedReadBack | src/peer.rs:141-153 | Every byte string is recovered from its unit name, which has no slash, in spite of the leading dot and the exchange of slash and dash |
| Escape.UnitByteExact | src/peer.rs:141-153 | What becomes of each octet of a name: a slash is a dash, letters, digits, colons, underscores and dots stay, all others and a dot in front are hexadecimal |
| Peer.UnitNamed | src/peer.rs:45 | A volume of unchanged octets has the unit systemd-cryptsetup@, its name, .service |
| Peer.OneVolumePerCgroup | src/peer.rs:133-138 | No cgroup file puts a process in the units of two volumes |
| Peer.InUnitExact | src/peer.rs:133-138 | For any lines, ended by line feeds with or without carriage returns, the last one ended or not: a process is in a unit exactly when the first line that begins with 0:: goes on with a path whose part after the last slash is the unit; other hierarchies may stand before and after |
| Peer.LinesReadBack | src/peer.rs:133-138 | Those lines come back whichever way they were ended |
| Peer.OwnUnitAccepted | src/peer.rs:133-138 | A cgroup file whose unified path ends in the volume's unit is accepted as that volume's, with and without the line break at its end |
| AskPw.CandidatesOffered | src/askpw.rs:103-110 | Passphrases without newlines, printed one a line, come back verbatim and in order, the first four of them |
| AskPw.CandidatesExact | src/askpw.rs:103-110 | Of any printed lines, empty ones among them, the first four that are not empty, in order |
| AskPw.JoinedSplit | src/askpw.rs:103-110 | Splitting at newlines loses nothing |
| BindName.ParsesExactly | src/bindname.rs:67-98 | A name is of a known phase and volume exactly when it is a non-empty alphanumeric prefix, that phase's infix and the volume |
| BindName.PhasesExactly | src/bindname.rs:48-98 | In letters: at least one letter or digit and nothing else, then /cryptsetup/, /cryptsetup-tpm2/, /cryptsetup-fido2-salt/ or /cryptsetup-pkcs11/ for the four phases, then the volume |
| BindName.UnknownExactly | src/bindname.rs:67-98 | A name is of unknown phase exactly when it has the documented shape, no known infix follows the prefix, and the last component is not empty |
| BindName.OrderIrrelevant | src/bindname.rs:48-53 | The result does not depend on the order of the infix table |
| Consent.ClassifyExact | src/consent.rs:115-128 | Yes exactly when the first line is y or yes and Always exactly when it is a or always, in capitals or not and with blanks around; everything else is No |
| Consent.FirstLineExact | src/consent.rs:115-120 | The first line of a reply is what comes before its first line break, however that is written |
| Consent.BlankExact | src/consent.rs:120 | The blanks, by their 25 code points |
| Memory.Cache.Insert | src/cache.rs:27-31 | Appends a secret unless it is there already, so no two entries are ever equal |
| Refusal.RefusalExact | src/main.rs:709-740 | A refusal holds for the rest of every run -- the state is neither asked about nor enrolled again -- if and only if the state is not empty; for the empty one the run that breaks it has both connections delivered by the sockets of configured volumes |
| Refusal.AskedAgain | src/main.rs:709-740 | In every world whose sockets deliver connections of their own units, with a right passphrase, preflights that plan a repair for the empty state and a person who always refuses, and for any two of its volumes: a lawful run in which a refusal on the first is followed by the same question on the second |
| RefusalRun.AskedEveryTime | src/main.rs:494-518 | And in every lawful run of such a world, so in every one of the daemon's, each connection that is served has the question put and refused, however often it was refused before |
| RefusalRun.RefusedAgain | src/main.rs:450-519 | The daemon's own loop, once round, where two volumes' sockets are ready: the run it makes has the question about the empty state put, refused, and put again |
| RefusalRun.AwakeExists | src/main.rs:494-518 | There is such a world, with a header, a TPM, processes and socket names spelled out |
| HollowTpm.EmptyStateArises | src/preflight.rs:103-131 | A device that accepts every command and reports an empty digest makes the preflight plan a repair for the empty state, for any plain token that matches the configuration |
| HollowTpm.ConformingStateNotEmpty | src/preflight.rs:103-131 | A conforming TPM never does, so with one every refusal holds |
| Asking.AskedExactly | src/main.rs:709-740 | In every run, on every connection that is answered without a request to stop and whose preflight plans a repair: a person is asked exactly when neither an earlier Always nor, for a non-empty state, an earlier No settles it |
| Runs.AtMostOneAfterSignal | src/main.rs:399-402 | Once the signal has arrived at most one more check, prompt, question, preflight, enrollment or connection starts in the rest of the run |
| Runs.NoIsFinal | src/main.rs:709-740 | After a No for a non-empty state no later step of the run enrolls it or asks about it, on any volume |
| Runs.AlwaysIsFinal | src/main.rs:716-740 | After an Always no later step asks about that state |
| Runs.NeverBoth | src/consent.rs:30-55 | No non-empty state is both refused and accepted for good in one run |
| Runs.FirstThatOpens | src/main.rs:848-925 | The passphrase returned is the first that opens the device, of those that opened something earlier in the run followed by those typed on this connection: all before it were checked against this device and found wrong |
| Runs.PromptOnlyWhenNeeded | src/main.rs:869-904 | A person is prompted only when every passphrase known by then was found not to open this device |
| Runs.SharedTypedOnce | src/main.rs:843-847 | When the verdict depends on device and secret alone, a passphrase that opened anything is never prompted for again on a device it opens |
| Runs.SearchBounded | src/main.rs:848-925 | A connection makes no more checks than there are known passphrases and three prompts of four candidates can add, and no more than three prompts |
| Runs.PromptedExact | src/askpw.rs:54-110 | In every run a prompt brings in nothing if it failed, and otherwise the first four non-empty lines it printed |
| Runs.FirstPromptOnly | src/askpw.rs:72-74 | The keyring may answer a connection's first prompt and no other |
| Runs.LearnedOpened | src/cache.rs:25-31 | The remembered passphrases are distinct, each opened something, and they are in the order in which they first did |
| Runs.EnrollmentJustified | src/main.rs:660-766 | Every enrollment in every run belongs to a plain-phase connection that a configured volume's socket delivered from a trusted process, whose passphrase opened that same device, whose preflight planned it, and seals the configured selection |
| Runs.PlannedOnEvidence | src/preflight.rs:49-131 | That preflight saw the volume's own header, host files and TPM as they were then, and all of its conditions held of them |
| Runs.JudgedOn | src/preflight.rs:49-54 | Every preflight judges the header as it is read then, or leaves it alone because it cannot be read |
| Runs.AnswerIsReply | src/main.rs:722-739 | In every run the answer acted on is what was typed: Yes exactly for a reply that says y or yes, Always exactly for one that says a or always, No for any other and for none |
| Runs.EnrollmentAgreed | src/main.rs:709-740 | Behind each enrollment stands a person's reply about the identical state: y or yes on this connection, or a or always on this or an earlier one |
| Runs.RepairVerified | src/main.rs:772-840 | Whatever is verified was just enrolled and is judged on the volume's own re-read header and the TPM that planned it; it is found good exactly under the conditions of Preflight.GoodExact on them, and so if the TPM conforms and the enrollment did what it was asked |
| Runs.EnrolledIsVerified | src/main.rs:742-766 | An enrollment that succeeded is verified at once, signal or not |
| Law.Conversation | src/main.rs:676-705 | What the TPM was sent by the time a repair is decided on: one question about lockout, the four commands of a policy, and then readings of registers only |
| Runs.BytesJustified | src/main.rs:551-650 | Bytes are sent only on a trusted plain-phase connection that the volume's own socket delivered, judged by what the kernel reported of it, and are the beginning of a passphrase that opened that volume's device on that connection, the whole of it exactly when the write succeeded |
| Runs.AcquiredIsSent | src/main.rs:642-650 | A passphrase that was acquired is sent before the connection is over, whatever comes of the repair and of a request to stop |
| Runs.GrantedExact | src/main.rs:551-619 | A connection is served exactly when its name is a plain-phase one for the socket's own volume and its process is root's, alive, running the expected binary and in systemd-cryptsetup@volume.service |
| Runs.TrustedForOne | src/peer.rs:23-64 | No process passes the peer check for two volumes |
| Daemon.CheckEach | src/main.rs:861-880 | Tries a list in order up to the first that opens the device, an unusable device or a request to stop |
| Daemon.Acquire | src/main.rs:848-925 | Keeps to the law of the search; returns a secret that was just judged correct, or nothing when the search was fruitless; the cache stays the list of passphrases learned in the run, at most one fresh entry longer |
| Daemon.Judge | src/main.rs:676-692 | The preflight, or a reason why there was none or it left the header alone |
| Memory.CourseExact | src/main.rs:709-716 | A state that is not empty is skipped when it was declined, and otherwise goes ahead or is asked about as it was accepted or not; the empty one is never skipped |
| Daemon.Consult | src/main.rs:709-740 | Goes ahead only on an agreement to that state, given now or for good, and otherwise only for a refusal or a request to stop; what is remembered is what was answered in the run, which Runs.AnswerIsReply ties to the replies, but for refusals of the empty state |
| Daemon.MaybeReenroll | src/main.rs:660-766 | The question of a repair is always carried through: to a request to stop, no TPM, a preflight against it, a refusal, a failed enrollment, or a verified one |
| Daemon.VerifyRepair | src/main.rs:772-840 | The verdict of Preflight.VerifyExact on the re-read header and the TPM, recorded at once |
| Daemon.DecisionsDisjoint | src/consent.rs:30-55 | The accepted and the declined states are disjoint in every reachable state |
| Daemon.WriteAll | src/main.rs:938-948 | Under any partial writes and interruptions, what was written is the beginning of the secret, and all of it exactly on success |
| Daemon.RepairAndReply | src/main.rs:642-646 | With a passphrase in hand, the repair comes first and then the reply, always |
| Daemon.ServePassphrase | src/main.rs:623-650 | A plain-phase connection ends with the device unopened, a fruitless search or a reply, with memory in step with the run |
| Daemon.Handle | src/main.rs:551-619 | Counts as handled exactly when it was a plain-phase connection for the socket's own volume from a trusted process; anything else does nothing at all |
| Daemon.ServeReady | src/main.rs:494-518 | Every socket reported ready gets its turn unless the daemon is asked to stop in between |
| Daemon.Pass | src/main.rs:460-519 | Once round the loop: ends only for a reason that holds, and moves the idle clock only for a trusted plain-phase connection |
| Daemon.Serve | src/main.rs:450-541 | Terminates, whatever happens, if the clock passes every time and finitely many trusted plain-phase connections come; the run is lawful, so each recorded connection is one that a configured volume's socket delivered then; served volumes are configured ones; nothing is owed or unverified at the end; and the exit reason is true -- when it is idleness, 300 seconds have passed since the last such connection was dealt with, and since then nothing was served |
| Daemon.Passes | src/main.rs:450-519 | Cut off after any number of passes, whether or not the loop would ever end and whoever goes on connecting, the run up to there is lawful and at rest |
| Daemon.PassCounts | src/main.rs:525-541 | Each pass uses up connections left to come, or else idle time left: other phases and failed peers postpone nothing |

## Left out

- Repair.RewritesFollowChanges: one volume and one consultation a boot, on a TPM whose registers do not move during the consultation; several connections of one run are in Resealing.SuccessesFollowMoves.
- Resealing.SuccessesFollowMoves: counts the moves of one selection, so all enrollments on the device have to be for that one; Resealing.MovedBeforeAny has no such condition.
- Drift.DriftExact: a collision of the hash on the compared inputs is excluded, and each selected register has a digest of the same size both times.
- Sessions.RunsLeaveNoSession: assumes of each request that a started session's handle could be decoded and its flush succeeded, which nothing can prove of an arbitrary TPM; of a conforming one it is proved (TpmMachine.ConformingRunsLeaveNoSession).
- Daemon.Serve: assumes a clock that never goes back and passes every time, finitely many trusted plain-phase connections, and writes that are not interrupted forever; without the first two, Daemon.Passes has what holds after any number of passes.
- Child.Collect: assumes a clock that never goes back and reaches the deadline; killing and reaping the child is not modelled.
- Hex.UnhexExact: on characters, where the code works on the bytes of the text; either way anything but hexadecimal digits is refused.
- Consent.ClassifyExact: on text; the lossy conversion from bytes is not modelled.
- System calls (`accept`, `poll`, `getpeername`, pidfd, `/proc`, `mlockall`, `prctl`, signal installation): their results are oracles. The peer check is four facts about a process, of which the cgroup match is modelled in full.
- Child tools (`cryptsetup`, `systemd-cryptenroll`, `systemd-ask-password`): their verdicts are oracles, and what an enrollment leaves behind is its documented contract, wiping included.
- Hashing: a function with 32 bytes of output.
- JSON text: the model starts from parsed values. Of configuration loading only the register list and the bank are modelled; volume names, unknown keys, the warning about resettable registers and argument parsing would add easy members only.
- Message text, logging, `describe_rc`, `short`, `describe` and the text of `--tpm2-pcrs`: `log_state` is modelled by the commands it sends.
- Secrets are their bytes and devices an identity: zeroizing, memfds, device-mapper lookups and socket files are not part of this model.
- Nix modules, packages and virtual-machine tests.
