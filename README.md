# enclaved, modelled in Dafny

enclaved runs inside a Nitro-style enclave and hosts paid containers for
other people. A container is launched over an encrypted Nostr RPC request.
It is paid for through a wallet-connect (NWC) wallet, run with docker
compose, charged per interval of uptime, and upgraded automatically to
newer signed releases of its image. Its packets reach the outside world
through vsock proxies.

This project models the core of that system and proves properties of the
model. There is one Dafny module per core source file, plus three shared
ones: `Common` (Option, Result and JavaScript string helpers), `Consts`
and `Hex`.

- **Container tables.** `RecordStore` models `src/modules/db.ts`.
  `LegacyStore` models the older `src/db.ts`. A table is a map of rows by
  pubkey, with the insertion order and the next row id. The model proves:
  - both unique indexes (pubkey and name) are kept;
  - upsert-on-name touches only the deployment columns;
  - point updates and deletes fail when the pubkey has no row;
  - a freshly inserted record reads back as its normalised form: the new
    id, zero counters and balance, no upgrade policy, and an empty admin
    pubkey dropped.
- **Application server.** `src/enclave/app-server.ts` is split in two:
  - The `AppServer` class in `Orchestrator` has the source's fields: the
    container map and its insertion order, the client cache, the launch
    gate and the table. Each method is proved to end in the state that a
    step function of a snapshot describes. Every method that changes the
    server keeps its invariant: the table is well formed, the order lists
    each key of the map once and no other, and every container sits under
    its own pubkey.
  - Those step functions live in `OrchestratorSpec` (the charge and uptime
    monitors), `OrchestratorStart` (new records, `launch`, built-ins,
    `startContainers`) and `OrchestratorUpgrade` (the upgrade monitor).
    Their properties are proved there.
- **Releases.** `Releases` models `src/modules/nostr.ts`: the dotted
  version order; the choice of releases vouched for by every listed signer
  and newer than the running version, sorted newest first (the source's
  order is engine-defined when a version has a non-numeric fragment, see
  "## Left out"); and the certificate templates.
- **Host runtime.** `RuntimeSpec` models `src/modules/docker.ts`.
  `LegacyDocker`, `LegacyCompose` and `LegacyContainer` model the older
  `src/docker.ts`, `src/compose.ts` and `src/enclave/container.ts`. Every
  command line the runtime runs is recorded in a trace, in order. Exit
  codes and listings come from the host.
- **RPC envelope.** `Rpc` models `src/enclaved.ts`. Each event id is
  answered at most once, with either a result or an error.
- **Control channel.** `ControlChannel` models
  `src/enclave/container-server.ts` over the message loop of
  `src/modules/ws-server.ts`: token admission, certificates, `set_info`
  and `get_container_info`.
- **Key store.** `Keycrux` models `src/modules/keycrux-client.ts`: service
  discovery, the age key and the upload count.
- **Proxies.** `Ipv4` models the outgoing proxy, over a byte array in
  place: the RFC 1071 checksum, the rewrite of the source address and the
  send loop. `VsockToIpIncoming` and `VsockToTunIncoming` model the two
  incoming proxies: framing by the RFC 791 Total Length field, the
  destination filter and what is written.
  - The TUN variant writes the whole 65535-byte buffer for each frame, not
    just the frame. `VsockToTunIncoming.WritesWholeBuffer` states exactly
    what the device receives: the frame, followed by whatever earlier
    frames left in the buffer.

Outside effects are parameters of the model:

- the NWC client's answers, invoice lookups and balances;
- the container runtime's outcomes and host exit codes;
- random keys, the clock, the registry's manifests and relay queries;
- signature verification.

Nothing here was executed.

## Model

| member | source | states |
|---|---|---|
| Common.Split | src/modules/docker.ts:138-139 | `split` gives at least one piece, and no piece holds the separator |
| Common.SplitWithoutSep | src/modules/docker.ts:138-139 | a text without the separator splits into itself alone |
| Common.SplitJoin | src/modules/docker.ts:138-139 | joining the pieces with the separator gives the text back |
| Common.TrimWithoutSpace | src/modules/docker.ts:141 | trimming a text without white space leaves it as it is |
| Common.NatToString | src/modules/nostr.ts:271 | the decimal text of a number is a non-empty digit run without a leading zero |
| Common.DigitsValueOfNatToString | src/modules/nostr.ts:271 | the decimal text of a number reads back as that number |
| Common.NatToStringInjective | src/modules/nostr.ts:271 | distinct numbers print as distinct text |
| Common.Filter | src/modules/docker.ts:140-141 | `filter` keeps exactly the elements that satisfy the test |
| Hex.HexToBytes | src/modules/db.ts:90 | a decoded key is half as long as its text; an odd-length text is refused with the library's message |
| Hex.HexRoundTrip | src/modules/db.ts:90-136 | the key column written with `bytesToHex` reads back unchanged through `hexToBytes` |
| Hex.HexToBytesAccepts | src/modules/db.ts:90 | `hexToBytes` accepts exactly the even-length texts of hexadecimal characters |
| Hex.BytesToHexIsHex | src/modules/db.ts:136 | what `bytesToHex` writes is always such a text |
| RecordStore.RecToContainer | src/modules/db.ts:78-98 | a row reads back exactly when its key column is hex text; the key decodes from that text, `is_builtin` becomes a flag that is set for any positive value, an empty admin pubkey becomes absent, pubkey, name and state carry over |
| RecordStore.ConflictKeeps | src/modules/db.ts:125-131 | the name-conflict branch sets only ports, docker, units, env and state; id, key, token, admin, name, builtin flag, payment hash, both counters and the balance of the existing row are kept |
| RecordStore.InsertRoundTrip | src/modules/db.ts:78-153 | a freshly inserted record reads back as its normalised form: the new id, zero counters and balance, no upgrade policy, and an empty admin pubkey dropped |
| RecordStore.NameOwner | src/modules/db.ts:100-104 | the row found for a name really carries that name; none is found only when no row has it |
| RecordStore.Records | src/modules/db.ts:205-209 | one record per row, in row order, each the read-back of its row |
| RecordStore.NamedRecord | src/modules/db.ts:100-107 | no record exactly when no row has the name; otherwise the read-back of the row with that name |
| RecordStore.PointUpdateKeepsTable | src/modules/db.ts:157-195 | a point update that leaves the key columns, name and id alone keeps both unique indexes |
| RecordStore.DeleteKeepsTable | src/modules/db.ts:197-203 | a delete keeps both unique indexes and the remaining rows in order |
| RecordStore.Upsert | src/modules/db.ts:109-155 | both unique indexes hold afterwards; a failed upsert changes nothing; a successful one adds at most the record's pubkey to the keys |
| RecordStore.ConflictPreservesTable | src/modules/db.ts:125-131 | rewriting the row that owns the name keeps both unique indexes |
| RecordStore.InsertPreservesTable | src/modules/db.ts:111-124 | inserting a row whose pubkey and name are both new keeps the indexes and appends it last with the next id |
| RecordStore.DB.constructor | src/modules/db.ts:28-72 | a new table is empty and valid |
| RecordStore.DB.GetNamedContainer | src/modules/db.ts:100-107 | no record exactly when no row carries the name; a record found carries the name and belongs to a stored row |
| RecordStore.DB.ListContainers | src/modules/db.ts:205-209 | as many records as rows, the i-th the read-back of the i-th row |
| RecordStore.DB.UpsertContainer | src/modules/db.ts:109-155 | a taken name rewrites that row's deployment columns only; a new name with a pubkey already stored fails the pubkey index and changes nothing; otherwise the row is appended with the next id |
| RecordStore.DB.SetContainerState | src/modules/db.ts:157-163 | a stored pubkey gets the new state and nothing else changes; a missing one fails with the source's message and changes nothing |
| RecordStore.DB.SetContainerPaymentHash | src/modules/db.ts:165-171 | the same for the payment hash |
| RecordStore.DB.SetContainerUptimePaid | src/modules/db.ts:173-179 | the same for the paid counter |
| RecordStore.DB.SetContainerUptimeCount | src/modules/db.ts:181-187 | the same for the uptime counter, failing with the paid counter's message as the source does |
| RecordStore.DB.SetContainerBalance | src/modules/db.ts:189-195 | the same for the balance |
| RecordStore.DB.SetContainerDockerUri | src/enclave/app-server.ts:235 | the same for the docker column, the setter the upgrade commit calls |
| RecordStore.DB.DeleteContainer | src/modules/db.ts:197-203 | a stored pubkey loses its row and leaves the order; a missing one fails and changes nothing |
| LegacyStore.RecToContainer | src/db.ts:61-77 | a row reads back exactly when its key column is hex text; `deployed` and `is_builtin` become flags that are set for any positive value, an empty admin pubkey becomes absent, the paid-until mark, pubkey and name carry over |
| LegacyStore.ConflictKeeps | src/db.ts:103-109 | the name-conflict branch sets only ports, docker, units, env and the deployed flag; everything else in the row is kept |
| LegacyStore.InsertRoundTrip | src/db.ts:61-129 | an inserted record reads back with the new id, paid-until 0 and an empty admin pubkey dropped; both flags survive the 1/0 encoding |
| LegacyStore.NameOwner | src/db.ts:79-84 | the row found for a name carries it; none is found only when no row has it |
| LegacyStore.ReadPortsFromOfMaxRecord | src/db.ts:137-138 | the `ports_from` field of the aggregate record when it is there and nonzero, 0 otherwise |
| LegacyStore.MaxPortsOf | src/db.ts:134-136 | the SQL maximum: no row is above it and, in a non-empty table, some row has it |
| LegacyStore.MaxPortsFromAsWrittenExample | src/db.ts:133-139 | with one row at port 5000 the maximum is 5000, but the code as written answers 0 |
| LegacyStore.ConflictPreservesTable | src/db.ts:103-109 | rewriting the row that owns the name keeps both unique indexes |
| LegacyStore.InsertPreservesTable | src/db.ts:88-102 | inserting a new pubkey under a new name keeps both unique indexes and appends it with the next id |
| LegacyStore.DB.constructor | src/db.ts:24-55 | a new table is empty and valid |
| LegacyStore.DB.GetNamedContainer | src/db.ts:79-86 | no record exactly when no row has the name; a found record carries the name and is the read-back of that stored row |
| LegacyStore.DB.GetMaxPortsFromAsWritten | src/db.ts:133-139 | as written the answer is always 0, whatever the table holds |
| LegacyStore.DB.GetMaxPortsFrom | src/db.ts:133-139 | with the alias read: no row above it, some row at it, 0 for an empty table |
| LegacyStore.DB.UpsertContainer | src/db.ts:88-131 | a taken name rewrites that row's deployment columns only; a new name under a stored pubkey fails and changes nothing; otherwise the row is appended |
| LegacyStore.DB.ListContainers | src/db.ts:141-145 | as many records as rows, the i-th the read-back of the i-th row |
| LegacyStore.Records | src/db.ts:141-145 | one record per row in row order, each its read-back |
| Ipv4.Fold | vsock-to-tun-incoming/ip_to_vsock_raw_outgoing.rs:66-68 | the end-around carry fold ends below 2^16, keeps the value modulo 0xFFFF, and is zero only for zero |
| Ipv4.Checksum | vsock-to-tun-incoming/ip_to_vsock_raw_outgoing.rs:52-72 | the chunk loop with its wrapping 32-bit accumulator computes the ones' complement of the folded sum of big-endian 16-bit words, a trailing odd byte being the high byte |
| Ipv4.SetSourceIpInPlace | vsock-to-tun-incoming/ip_to_vsock_raw_outgoing.rs:75-94 | the packet is rewritten in place into the value-level rewrite of the old packet |
| Ipv4.SetSourceIpFrame | vsock-to-tun-incoming/ip_to_vsock_raw_outgoing.rs:75-94 | after the rewrite bytes 12..16 hold the new address and no byte outside 10..16 has changed |
| Ipv4.ChecksumValidates | vsock-to-tun-incoming/ip_to_vsock_raw_outgoing.rs:85-93 | once the zeroed checksum field is filled with the header's checksum, the header checksums to 0 (section 3.1 of RFC 791) |
| Ipv4.SetSourceIpChecksumValid | vsock-to-tun-incoming/ip_to_vsock_raw_outgoing.rs:75-94 | after `set_source_ip`, the first 20 bytes checksum to 0 |
| Ipv4.DottedQuad | vsock-to-tun-incoming/ip_to_vsock_raw_outgoing.rs:125-131 | the fold over four octets prints `a.b.c.d` in decimal |
| Ipv4.ParseIpv4 | vsock-to-tun-incoming/ip_to_vsock_raw_outgoing.rs:144 | a parsed address has four octets |
| Ipv4.OctetTextValid | vsock-to-tun-incoming/ip_to_vsock_raw_outgoing.rs:125-144 | the decimal text of an octet is one the address parser accepts, and it reads back as that octet |
| Ipv4.ParseDotted | vsock-to-tun-incoming/ip_to_vsock_raw_outgoing.rs:125-144 | parsing the dotted text of four octets gives them back |
| Ipv4.NatToStringOfDigits | vsock-to-tun-incoming/ip_to_vsock_raw_outgoing.rs:144 | a digit text without a leading zero is the decimal print of its value |
| Ipv4.DottedOfParsed | vsock-to-tun-incoming/ip_to_vsock_raw_outgoing.rs:125-144 | conversely, an address text that parses is exactly what the fold prints for its octets |
| Ipv4.NeedsRewriteIff | vsock-to-tun-incoming/ip_to_vsock_raw_outgoing.rs:135-147 | for a configured address that parses, the source is rewritten exactly when the packet's source octets differ from it |
| Ipv4.HandlePacket | vsock-to-tun-incoming/ip_to_vsock_raw_outgoing.rs:115-165 | a packet shorter than a header panics untouched; a packet from the configured address is sent unchanged; one from elsewhere panics on an unparsable address or is rewritten; what is forwarded is the whole, possibly rewritten, packet |
| Ipv4.OnConnError | vsock-to-tun-incoming/ip_to_vsock_raw_outgoing.rs:184-205 | the main loop reopens the queue exactly on a queue error, otherwise the vsock socket |
| Ipv4.ChecksumOf | vsock-to-tun-incoming/ip_to_vsock_raw_outgoing.rs:52-72 | the value `checksum` returns; Checksum computes it and ChecksumValidates shows a header carrying it checksums to 0 |
| Ipv4.SetSourceIp | vsock-to-tun-incoming/ip_to_vsock_raw_outgoing.rs:75-94 | `set_source_ip` on values; SetSourceIpFrame and SetSourceIpChecksumValid state which bytes change and that the checksum is valid afterwards |
| Ipv4.Dotted | vsock-to-tun-incoming/ip_to_vsock_raw_outgoing.rs:125-131 | the fold that prints an address; DottedQuad, ParseDotted and DottedOfParsed state that it prints `a.b.c.d` and agrees with the address parser |
| Ipv4.NeedsRewrite | vsock-to-tun-incoming/ip_to_vsock_raw_outgoing.rs:135-147 | the source is rewritten when its printed text differs from the configured address; NeedsRewriteIff states it on the octets |
| VsockToIpIncoming.TotalLength | vsock_proxy/vsock_to_ip_raw_incoming.rs:75 | the frame size is the big-endian u16 at bytes 2..4: below 2^16, high byte is byte 2, low byte is byte 3 |
| VsockToIpIncoming.ReadExact | vsock_proxy/vsock_to_ip_raw_incoming.rs:70-82 | `read_exact` succeeds exactly when enough of the stream is left; then the slice holds the next bytes and nothing else in the buffer changes; a failure consumes nothing and changes nothing |
| VsockToIpIncoming.FrameStep | vsock_proxy/vsock_to_ip_raw_incoming.rs:68-110 | one frame keeps the 65535-byte buffer, never moves back in the stream, and a frame that is written or skipped consumes at least its 4-byte prefix |
| VsockToIpIncoming.HandleFrame | vsock_proxy/vsock_to_ip_raw_incoming.rs:68-110 | the in-place loop body ends the frame, leaves the buffer and moves the stream position as the frame function says |
| VsockToIpIncoming.HandleBody | vsock_proxy/vsock_to_ip_raw_incoming.rs:79-109 | the second read, the destination filter and the write, as the body step says |
| VsockToIpIncoming.WrittenIsFrame | vsock_proxy/vsock_to_ip_raw_incoming.rs:75-109 | a written packet is exactly the frame's bytes of the stream, at least 4 long, its Total Length field equal to its length, and addressed to the configured address |
| VsockToIpIncoming.FrameOutcomes | vsock_proxy/vsock_to_ip_raw_incoming.rs:75-104 | a Total Length below 4 panics on the slice `4..size`; a frame longer than what is left is a vsock error; a frame for another address is skipped, each exactly in its case |
| VsockToIpIncoming.ConnRun | vsock_proxy/vsock_to_ip_raw_incoming.rs:61-111 | the frame loop only ends on an error or a panic, never on a written or skipped frame |
| VsockToIpIncoming.ConnRunUnfolds | vsock_proxy/vsock_to_ip_raw_incoming.rs:68-110 | one turn of the loop: a skipped frame continues, a written one is recorded before the rest, anything else ends the run |
| VsockToIpIncoming.ConnFrame | vsock_proxy/vsock_to_ip_raw_incoming.rs:68-110 | one turn of the in-place loop takes the run one frame further and strictly advances the stream on a skipped or written frame |
| VsockToIpIncoming.HandleConn | vsock_proxy/vsock_to_ip_raw_incoming.rs:61-111 | from a zeroed 65535-byte buffer, the packets written and the error that ends the connection are those of the run |
| VsockToIpIncoming.WrittenFramesWhole | vsock_proxy/vsock_to_ip_raw_incoming.rs:61-111 | every packet a connection writes is a whole frame whose Total Length field is its length |
| VsockToIpIncoming.OnHandlerError | vsock_proxy/vsock_to_ip_raw_incoming.rs:139-154 | the main loop re-accepts exactly on a vsock error and panics on any other |
| VsockToTunIncoming.TunFrameStep | vsock-to-tun-incoming/vsock_to_tun_incoming.rs:64-110 | one frame of the TUN variant keeps the buffer size and never moves back in the stream |
| VsockToTunIncoming.HandleTunFrame | vsock-to-tun-incoming/vsock_to_tun_incoming.rs:64-110 | the in-place loop body agrees with the TUN frame function |
| VsockToTunIncoming.HandleTunBody | vsock-to-tun-incoming/vsock_to_tun_incoming.rs:74-95 | the second read, the filter and the whole-buffer write agree with the TUN body step |
| VsockToTunIncoming.WritesWholeBuffer | vsock-to-tun-incoming/vsock_to_tun_incoming.rs:92-95 | what the TUN variant writes is always all 65535 bytes: the frame from the stream, then whatever the buffer held after it |
| VsockToTunIncoming.TunFrameOutcomes | vsock-to-tun-incoming/vsock_to_tun_incoming.rs:66-95 | each of panic, vsock error, skip and write happens exactly in its case of size, stream length, destination and write outcome |
| VsockToIpIncoming.ForUs | vsock_proxy/vsock_to_ip_raw_incoming.rs:86-104 | the destination printed from bytes 16..20 is the configured address; WrittenIsFrame shows only such frames are written |
| VsockToIpIncoming.BodyStep | vsock_proxy/vsock_to_ip_raw_incoming.rs:79-109 | the rest of a frame after its prefix: the second read, the destination filter and the write; FrameOutcomes and WrittenIsFrame state its cases |
| Releases.Tv | src/modules/nostr.ts:484-487 | no value exactly when no tag of that name has a second element; otherwise the value is the second element of such a tag |
| Releases.NumberValue | src/modules/nostr.ts:451-452 | `Number` of a fragment: blank is 0, a digit run is its decimal value, and a number comes only from a blank, digit or signed digit text |
| Releases.Fragments | src/modules/nostr.ts:445-452 | one numeric value, possibly NaN, per dot-separated fragment, in order |
| Releases.IsNewVersionIrreflexive | src/modules/nostr.ts:444-463 | no version is newer than itself, even with NaN fragments |
| Releases.IsNewVersionAsymmetric | src/modules/nostr.ts:444-463 | two versions are never each newer than the other |
| Releases.IsNewVersionTransitive | src/modules/nostr.ts:444-463 | newer-than is transitive |
| Releases.FirstDifferenceDecides | src/modules/nostr.ts:447-458 | after equal fragments, the first unequal pair decides: newer exactly when that fragment is greater |
| Releases.EqualPrefixLongerIsNewer | src/modules/nostr.ts:449-462 | when all common fragments are equal, the version with more fragments is the newer one, and equal lengths are not newer |
| Releases.NumericVersionsComparable | src/modules/nostr.ts:444-463 | of two versions with all-numeric, different fragments, one is newer |
| Releases.NewReleases | src/modules/nostr.ts:480-488 | a fetched event is kept exactly when it is a release of this repo by a listed signer, has `x` and `u` values, and advertises a version newer than the running one |
| Releases.SigTags | src/modules/nostr.ts:500-502 | the `release` tag contents, no more than there are tags |
| Releases.AcceptedSigs | src/modules/nostr.ts:503-521 | every kept signature parses from one of the tags and matches the release's kind, signer list, repo, image id, version and prod flag |
| Releases.SignedReleases | src/modules/nostr.ts:493-532 | exactly the releases with enough accepted signatures and one by every listed signer, taken from the candidates |
| Releases.NewerReleaseIsStrict | src/modules/nostr.ts:534-542 | the sort's newer-than comparison on releases is a strict order |
| Releases.Insert | src/modules/nostr.ts:534-542 | inserting keeps every element and adds exactly the new one |
| Releases.InsertOrdered | src/modules/nostr.ts:534-542 | inserting into a newest-first list keeps it newest first |
| Releases.SortBy | src/modules/nostr.ts:534-542 | the sort is a permutation of its input; its order is the engine's only for a consistent comparator, as "## Left out" records |
| Releases.SortByOrdered | src/modules/nostr.ts:534-542 | for a strict order the sort's result is ordered |
| Releases.SortNewest | src/modules/nostr.ts:534-542 | sorting newest first keeps exactly the given releases, with multiplicity; the order agrees with the source's only when the comparator is consistent, e.g. all-numeric versions |
| Releases.SortNewestIsNewestFirst | src/modules/nostr.ts:534-542 | no release comes after one it is newer than, in the model's sort; the source gives this only with a consistent comparator |
| Releases.NaNFragmentIncomparable | src/modules/nostr.ts:444-463 | 1.3.1 is newer than 1.3.0, yet 1.3.0-rc1 is comparable with neither, so incomparability is not transitive once a fragment is NaN |
| Releases.ExampleFragments | src/modules/nostr.ts:445-452 | the fragment values of 1.3.1, 1.3.0 and 1.3.0-rc1, the last with a NaN third fragment |
| Releases.NaNFragmentBreaksNewestFirst | src/modules/nostr.ts:534-542 | for releases fetched as 1.3.0, 1.3.0-rc1, 1.3.1 the comparator answers 0 on both adjacent pairs, yet that order is not newest first, while the model's sort is |
| Releases.CollectSigs | src/modules/nostr.ts:500-521 | the signature loop collects exactly the accepted signatures |
| Releases.AllSignersPresent | src/modules/nostr.ts:524-530 | the signer loop's answer is true exactly when every listed signer has a signature |
| Releases.CheckRelease | src/modules/nostr.ts:494-531 | a release is kept exactly when it is signed |
| Releases.CheckUpgrade | src/modules/nostr.ts:465-543 | the releases returned are the signed candidates, sorted by the model's newest-first sort |
| Releases.CheckUpgradeResult | src/modules/nostr.ts:465-543 | the result holds exactly the fetched candidates that every listed signer vouched for, each newer than the running version, and is newest first by the model's sort, which the source matches only with a consistent comparator |
| Releases.PrepareRootCertificate | src/modules/nostr.ts:81-104 | the root certificate carries the attestation, the `-` and environment tags, and an expiration that is the certificate's end in seconds, or the default lifetime without one |
| Releases.Floor | src/modules/nostr.ts:88 | `Math.floor(a / b)`: the greatest multiple of b not above a |
| Releases.PrepareContainerCert | src/modules/nostr.ts:259-278 | a certificate by the service for the container's key, expiring one lifetime from now, with a `docker://` reference exactly when the image is set |
| Releases.PrepareAppCert | src/modules/nostr.ts:396-413 | a certificate by the container's own key for the app's key, expiring one lifetime from now |
| Releases.CertExpirationReadsBack | src/modules/nostr.ts:271 | the expiration tag of a container certificate is a digit text whose value is now plus the lifetime |
| Releases.NewerFragments | src/modules/nostr.ts:447-462 | the fragment loop of `isNewVersion`: more fragments win, equal values go on, and the first unequal pair decides, a NaN fragment being neither equal to nor greater than another |
| Releases.IsNewVersion | src/modules/nostr.ts:444-463 | `isNewVersion`; IsNewVersionIrreflexive, IsNewVersionAsymmetric, IsNewVersionTransitive, FirstDifferenceDecides and EqualPrefixLongerIsNewer state its order |
| Releases.IsCandidate | src/modules/nostr.ts:480-488 | the filter on fetched events: the release kind, a listed signer, this repository, `x` and `u` values and a newer version; NewReleases keeps exactly these |
| Releases.SigMatches | src/modules/nostr.ts:507-515 | a signature is accepted when it is a valid signature event by a listed signer for the same repository, image id, version and production flag; AcceptedSigs keeps exactly these |
| Releases.IsSigned | src/modules/nostr.ts:500-531 | a release is kept when its accepted signatures are at least as many as the signers and include one by each; SignedReleases and CheckRelease use it |
| RuntimeSpec.ComposeArgsLayout | src/modules/docker.ts:32-38 | the compose line names the container's compose file and project, then the command; it carries `--dry-run` exactly when dry, `-d` exactly for up, and for logs `-f` when following and `-n` otherwise |
| RuntimeSpec.ComposeCheck | src/modules/docker.ts:40-46 | followed logs run unchecked; every other compose call fails with "Failed to run docker compose" exactly when its exit code is non-zero |
| RuntimeSpec.Quotas | src/modules/docker.ts:156-162 | zero units count as one; more than 50 is refused as "Max units = 50"; otherwise memory is 50 MB, pids 10, disk the per-unit share and cpu a tenth per unit |
| RuntimeSpec.QuotasBounded | src/modules/docker.ts:156-162 | an accepted unit count gives positive limits no larger than those of 50 units |
| RuntimeSpec.EnvError | src/modules/docker.ts:177-179 | an entry is refused exactly when its value is not a string ("Invalid env value", checked first) or its key holds a space or a newline ("Invalid env key") |
| RuntimeSpec.EnvLines | src/modules/docker.ts:165-181 | accepted environment lines start with the fixed header and add one line per entry |
| RuntimeSpec.EnvLinesAccepts | src/modules/docker.ts:176-181 | the environment is accepted exactly when every entry is, and then entry k is line k after the header, with its string value |
| RuntimeSpec.EnvLinesFirstError | src/modules/docker.ts:176-181 | a refused environment fails with the reason of its first refused entry |
| RuntimeSpec.BuildEnv | src/modules/docker.ts:176-181 | the env loop computes the environment lines or the first refusal |
| RuntimeSpec.PrefixErrSticks | src/modules/docker.ts:176-181 | once some entry is refused, later entries do not change the outcome |
| RuntimeSpec.HashTag | src/modules/docker.ts:108 | the hash tag is the first 14 hex characters of the path's digest |
| RuntimeSpec.HashTagIsHex | src/modules/docker.ts:108 | every character of the hash tag is a hex digit |
| RuntimeSpec.VolumeName | src/modules/docker.ts:107-108 | a volume name starts with the container's pubkey and `_` |
| RuntimeSpec.VolumeSize | src/modules/docker.ts:104 | the size is the floor of the unit's disk share divided by the number of image volumes |
| RuntimeSpec.CreateVolumes | src/modules/docker.ts:101-131 | the volume loop runs at most one create per path |
| RuntimeSpec.NonBlank | src/modules/docker.ts:102 | the paths kept are exactly those with non-blank text |
| RuntimeSpec.PlannedCreates | src/modules/docker.ts:101-118 | one create line per non-blank path, in order, with its name and size |
| RuntimeSpec.CreateVolumesDone | src/modules/docker.ts:101-131 | when every create succeeds, exactly the planned creates ran, in order |
| RuntimeSpec.CreateVolumesGrows | src/modules/docker.ts:109 | a further path keeps every name already in use and adds its own |
| RuntimeSpec.CreateVolumesUses | src/modules/docker.ts:109 | after a successful loop every non-blank path's volume name is in use |
| RuntimeSpec.VolumeSizesWithinShare | src/modules/docker.ts:104 | the created volumes together never exceed the unit's disk share |
| RuntimeSpec.UnusedVolumes | src/modules/docker.ts:138-141 | a listed line is removed exactly when it starts with the pubkey and its trimmed text is not in use |
| RuntimeSpec.CleanupKeepsCreated | src/modules/docker.ts:109-146 | a volume just created for one of the image's paths is never removed, whatever the listing says |
| RuntimeSpec.VolumeNameUnspaced | src/modules/docker.ts:107-108 | a volume name has no white space when the pubkey has none |
| RuntimeSpec.RemoveDirs | src/modules/docker.ts:148-152 | a successful directory loop ran `rm -Rf` on each removed volume's directory, in order |
| RuntimeSpec.CreateVolumesLoop | src/modules/docker.ts:101-131 | the volume loop computes the volume run |
| RuntimeSpec.VolumeFailSticks | src/modules/docker.ts:118 | once a create fails, no later path is created |
| RuntimeSpec.RemoveDirsLoop | src/modules/docker.ts:148-152 | the directory loop computes the directory run |
| RuntimeSpec.DirFailSticks | src/modules/docker.ts:151 | once a directory removal fails, no later one runs |
| RuntimeSpec.UpFinishSteps | src/modules/docker.ts:156-220 | the finishing steps end as the specified finishing phase |
| RuntimeSpec.UpVolumesSteps | src/modules/docker.ts:89-141 | the volume steps end as the specified volume phase |
| RuntimeSpec.UpCleanupSteps | src/modules/docker.ts:143-153 | the cleanup steps end as the specified cleanup phase |
| RuntimeSpec.RunUp | src/modules/docker.ts:65-221 | `up` ends, and runs its commands, as specified |
| RuntimeSpec.UpNeedsDocker | src/modules/docker.ts:66 | without a docker reference `up` fails at once and runs nothing |
| RuntimeSpec.UpReachesFinish | src/modules/docker.ts:66-157 | an `up` that passes the host steps ends as its finishing phase after them |
| RuntimeSpec.FinishDone | src/modules/docker.ts:156-220 | a successful finish had valid units and env and appended the dry and the real compose up |
| RuntimeSpec.UpDone | src/modules/docker.ts:65-221 | a successful `up` had a valid unit count and env and ended with the dry compose up followed by the real one |
| RuntimeSpec.UpChecksUnitsLate | src/modules/docker.ts:101-157 | the unit limit is checked only after the volumes were created and old ones removed: an over-limit container fails having run every create |
| RuntimeSpec.UpOverLimitTrace | src/modules/docker.ts:101-157 | an over-limit container whose host steps succeed fails with "Max units = 50" after all of them |
| RuntimeSpec.CreatesBeforeFinish | src/modules/docker.ts:101-153 | the creates are among the commands run before the finishing phase |
| RuntimeSpec.UpChecksUnitsLateOnGoodHost | src/modules/docker.ts:101-157 | on a host where every command succeeds, an over-limit container still fails |
| RuntimeSpec.VolumesReachCleanup | src/modules/docker.ts:101-143 | after the creates and the listing succeed, the cleanup runs on the container's unused volumes |
| RuntimeSpec.CleanupReachesFinish | src/modules/docker.ts:143-156 | a successful cleanup hands over to the finishing phase |
| RuntimeSpec.FinishOverLimit | src/modules/docker.ts:157 | over 50 units the finishing phase fails and runs nothing more |
| RuntimeSpec.AllCreatesSucceed | src/modules/docker.ts:111-118 | on a host where every command succeeds, the volume loop succeeds |
| RuntimeSpec.AllDirsRemoved | src/modules/docker.ts:148-152 | on a host where every command succeeds, the directory loop succeeds |
| RuntimeSpec.GetPath | src/modules/docker.ts:20-23 | the spec directory of a container, named by the pubkey of its secret key; LegacyCompose.SpecPath shows the oldest runtime uses the same one |
| RuntimeSpec.ComposeArgs | src/modules/docker.ts:32-38 | the `docker compose` argument list; ComposeArgsLayout states its layout |
| RuntimeSpec.UpSpec | src/modules/docker.ts:65-221 | `up` as a trace of commands and its outcome; RunUp computes it and UpDone, UpNeedsDocker, UpChecksUnitsLate and CleanupKeepsCreated state its properties |
| LegacyDocker.CheckImageSpec | src/docker.ts:20-45 | an image passes exactly when the registry inspect succeeds, its layer list is readable and the layers add up to at most 300000000 bytes; a failed inspect is "Failed to fetch docker image", anything else "Failed to parse image info" |
| LegacyDocker.CheckImage | src/docker.ts:30-44 | the summing loop ends as the image check specifies |
| LegacyDocker.OversizeLooksUnparsable | src/docker.ts:40-43 | the too-big error is swallowed by the `catch`: an oversized image is reported exactly like unreadable output |
| LegacyDocker.ComposeArgsAgree | src/docker.ts:58-63 | the older compose lines are the newer ones without follow mode |
| LegacyDocker.ComposeCheck | src/docker.ts:65-66 | every older compose call, logs included, fails exactly when the newer one would fail without follow mode |
| LegacyDocker.TrimAll | src/docker.ts:99 | each line is trimmed, in place and order |
| LegacyDocker.VolumePaths | src/docker.ts:97-100 | the image's volume paths are exactly the non-empty trimmed lines of the trimmed inspect output |
| LegacyDocker.Mounts | src/docker.ts:108-121 | at most one mount line per path |
| LegacyDocker.UsedOfNames | src/docker.ts:112-113 | every name in use is the hash tag of the path it maps to, at most 14 characters long |
| LegacyDocker.MountsCoverPaths | src/docker.ts:108-121 | every non-blank path is mounted under its hash tag, which is in use, and every mount is of an image path under its own tag |
| LegacyDocker.PlanVolumes | src/docker.ts:105-136 | the volume loop computes the names in use and the mount lines |
| LegacyDocker.VolumeSizesWithinShare | src/docker.ts:107 | the declared volume sizes together never exceed the unit's disk share |
| LegacyDocker.RunUp | src/docker.ts:81-218 | the older `up` ends, and runs its commands, as specified |
| LegacyDocker.StaleVolumes | src/docker.ts:102-145 | the volumes put up for removal are the specified stale ones |
| LegacyDocker.RemoveSteps | src/docker.ts:140-151 | the listing and removal steps end as specified |
| LegacyDocker.FinishSteps | src/docker.ts:154-217 | the finishing steps end as specified |
| LegacyDocker.UpNeedsDocker | src/docker.ts:82 | without a docker reference `up` fails at once and runs nothing |
| LegacyDocker.UpReachesFinish | src/docker.ts:82-155 | a successful `up` went through pull, inspect, listing and removal before its finishing phase |
| LegacyDocker.RemoveReachesFinish | src/docker.ts:140-151 | a successful removal phase listed the volumes, removed the stale ones in one command when there were any, and handed over to the finishing phase |
| LegacyDocker.FinishDone | src/docker.ts:154-217 | a successful finish had valid units and env and appended the dry and the real compose up |
| LegacyDocker.UpDone | src/docker.ts:81-218 | a successful `up` had a docker reference, valid units and env, and ended with the dry and the real compose up |
| LegacyDocker.RemovesOnlyStale | src/docker.ts:142-145 | only this container's listed volumes whose trimmed names are not in use are removed |
| LegacyDocker.ComposeNamedVolumeRemoved | src/docker.ts:112-150 | a listed `<pubkey>_<tag>` volume of one of the image's own paths is never seen as in use, so it is removed |
| LegacyDocker.UsedOf | src/docker.ts:108-121 | the volume names in use after the older volume loop; UsedOfNames and MountsCoverPaths state them |
| LegacyDocker.Unused | src/docker.ts:142-145 | the listed volumes of this container not in use; RemovesOnlyStale and ComposeNamedVolumeRemoved state which are removed |
| LegacyDocker.UpSpec | src/docker.ts:81-218 | the older `up` as a trace; RunUp computes it and UpDone, UpNeedsDocker and UpReachesFinish state its properties |
| LegacyCompose.ComposeArgsNamed | src/compose.ts:47-53 | with a project name the oldest compose line is the older runtime's |
| LegacyCompose.ComposeArgsUnnamed | src/compose.ts:47-53 | without a name the line names the file and the command and passes no `-p` |
| LegacyCompose.SpecPath | src/compose.ts:60-96 | the spec directory is the one the newer runtime uses for that pubkey |
| LegacyCompose.Launch | src/compose.ts:69-131 | `launch` ends, and runs its commands, as specified |
| LegacyCompose.LaunchDone | src/compose.ts:69-131 | a successful launch had a docker reference, at most 50 units and a valid env, and ran exactly the dry and the real up under the key's pubkey |
| LegacyCompose.LaunchRefusalsRunNothing | src/compose.ts:70-73 | a launch without a docker reference or over 50 units fails with its own message and runs nothing |
| LegacyCompose.ComposeArgs | src/compose.ts:47-53 | the oldest `docker compose` argument list, `-p` only with a name; ComposeArgsNamed and ComposeArgsUnnamed relate it to the others |
| LegacyCompose.StopArgs | src/compose.ts:59-62 | `stop`: one compose command in the container's spec directory, without a project name |
| LegacyCompose.LogsArgs | src/compose.ts:64-67 | `logs`: one compose command in the container's spec directory, without a project name and without follow mode |
| LegacyCompose.LaunchSpec | src/compose.ts:69-131 | `launch` as a trace; Launch computes it and LaunchDone and LaunchRefusalsRunNothing state its properties |
| LegacyContainer.Rises | src/enclave/container.ts:24-27 | announcing starts at most once per `setDeployed` call |
| LegacyContainer.SteadyStartsNothing | src/enclave/container.ts:25 | setting the flag to the value it already has, any number of times, starts no announcer and keeps the flag |
| LegacyContainer.Toggles | src/enclave/container.ts:24-27 | n rounds of undeploy then deploy are 2n calls |
| LegacyContainer.TogglesAddAnnouncers | src/enclave/container.ts:25-40 | each undeploy-then-deploy round registers one more announcer, since none is ever cancelled |
| LegacyContainer.Container.constructor | src/enclave/container.ts:18-22 | the object holds the record and context, and a deployed record starts one announcer |
| LegacyContainer.Container.SetDeployed | src/enclave/container.ts:24-27 | only the deployed flag changes, and an announcer is added exactly on a false-to-true edge |
| LegacyContainer.Container.SetDeployedAll | src/enclave/container.ts:24-27 | a run of calls leaves the last value and adds one announcer per rising edge |
| LegacyContainer.Container.Request | src/enclave/container.ts:46-53 | the launch request carries the record's image, env, units and key and the context's directory and mode |
| LegacyContainer.Container.Launch | src/enclave/container.ts:43-54 | without a docker reference the launch fails with "No docker url" and runs nothing; otherwise it is the compose launch of its request |
| LegacyContainer.Container.Stop | src/enclave/container.ts:56-58 | one compose stop addressed by directory and pubkey, failing exactly on a non-zero exit |
| LegacyContainer.Container.PrintLogs | src/enclave/container.ts:60-62 | one compose logs command addressed the same way, failing exactly on a non-zero exit |
| OrchestratorSpec.StatusOf | src/enclave/app-server.ts:332-372 | a monitor pass keeps running exactly when the awaited step succeeded |
| OrchestratorSpec.PortsInUse | src/enclave/app-server.ts:119-123 | exactly the range starts of the containers in memory |
| OrchestratorSpec.GridRangesDisjoint | src/enclave/app-server.ts:118-123 | two different range starts on the grid begin port ranges that do not overlap |
| OrchestratorSpec.FirstNamed | src/enclave/app-server.ts:545-547 | the answer is a container in memory with that name, and no container before it in map order has the name; none means no container has it |
| OrchestratorSpec.ContainerByToken | src/enclave/app-server.ts:51-53 | the answer is a container with that token, and none means no container has it |
| OrchestratorSpec.WalletPubkey | src/enclave/app-server.ts:544-553 | the built-in wallet's app pubkey exactly when the wallet is in memory with a non-empty pubkey; "No builtin wallet" without the wallet |
| OrchestratorSpec.NwcForCaches | src/enclave/app-server.ts:555-569 | the client cache only grows: a cached key gets its cached client back; a new client, for the current wallet and that key, is stored; a failure stores nothing |
| OrchestratorSpec.UpdateBalance | src/enclave/app-server.ts:375-382 | only the container's balance changes, and no container is added or removed |
| OrchestratorSpec.Extend | src/enclave/app-server.ts:411-412 | a paid interval adds or removes no container |
| OrchestratorSpec.PayClients | src/enclave/app-server.ts:394-395 | fetching the two wallet clients changes nothing but the client cache |
| OrchestratorSpec.Answer | src/enclave/app-server.ts:408-440 | an attempt gives up exactly on `INSUFFICIENT_BALANCE`, and then leaves the paid and uptime counters as they were; no container is added or removed |
| OrchestratorSpec.TryPay | src/enclave/app-server.ts:393-440 | an attempt gives up only on `INSUFFICIENT_BALANCE`, leaving both counters; no container is added or removed |
| OrchestratorSpec.ChargeLoop | src/enclave/app-server.ts:392-443 | the retry loop adds or removes no container and uses no more answers than it has |
| OrchestratorSpec.Charge | src/enclave/app-server.ts:388-444 | `charge` adds or removes no container |
| OrchestratorSpec.CheckWaiting | src/enclave/app-server.ts:596-630 | a settled invoice changes no container; otherwise at most the checked container is removed |
| OrchestratorSpec.OnlyTouchesTransitive | src/enclave/app-server.ts:388-444 | two steps that change only one container together change only it |
| OrchestratorSpec.ChargedFromTransitive | src/enclave/app-server.ts:411 | two charges in a row are one charge by whole intervals |
| OrchestratorSpec.ExtendFacts | src/enclave/app-server.ts:411-412 | a paid interval changes only the charged container's paid counter, by whole intervals |
| OrchestratorSpec.UpdateBalanceFacts | src/enclave/app-server.ts:375-382 | a balance refresh changes only that container's balance |
| OrchestratorSpec.TryPayFacts | src/enclave/app-server.ts:393-440 | one attempt changes only the charged container's paid counter and balance; giving up leaves the paid counter and happens only on `INSUFFICIENT_BALANCE` |
| OrchestratorSpec.ChargeLoopTouches | src/enclave/app-server.ts:392-443 | the loop changes only the charged container, and only its paid counter, by whole intervals and never down, and its balance |
| OrchestratorSpec.ChargeLoopAnswers | src/enclave/app-server.ts:392-443 | `charge` succeeds exactly when the paid counter passes the uptime counter; it uses a prefix of the answers, all of them when it stalls, and gives up only right after an `INSUFFICIENT_BALANCE` |
| OrchestratorSpec.ChargeLoopRetry | src/enclave/app-server.ts:421-440 | after a retried attempt, the loop is the loop over the later answers |
| OrchestratorSpec.GrowsTransitive | src/enclave/app-server.ts:332-372 | two passes within the allowed changes are one such change |
| OrchestratorSpec.MoveToFacts | src/enclave/app-server.ts:446-459 | a state change changes only that container, and only its state, and does so when the runtime succeeds |
| OrchestratorSpec.CheckWaitingFacts | src/enclave/app-server.ts:596-630 | checking an invoice changes no container and removes at most the checked one |
| OrchestratorSpec.TouchGrows | src/enclave/app-server.ts:336-366 | a change to one container within the allowed bounds is a change of the whole set within them |
| OrchestratorSpec.WaitingGrows | src/enclave/app-server.ts:361-366 | the invoice check, and the deploy after a settled one, change only the waiting container within the allowed bounds |
| OrchestratorSpec.ChargeGrows | src/enclave/app-server.ts:388-444 | `charge` changes only that container, within the allowed bounds |
| OrchestratorSpec.MoveGrows | src/enclave/app-server.ts:446-459 | pausing or deploying changes only that container, within the allowed bounds |
| OrchestratorSpec.DispatchGrows | src/enclave/app-server.ts:336-366 | one container's turn changes only that container, never lowers a paid counter, never changes an uptime counter or the built-in flag, and never makes a container waiting |
| OrchestratorSpec.ChargeTickGrows | src/enclave/app-server.ts:332-372 | a whole pass of the charge monitor stays within those bounds |
| OrchestratorSpec.DispatchLeavesAlone | src/enclave/app-server.ts:337-360 | built-in and upgrading containers, deployed ones already paid for and paused ones that owe without the balance are left alone and use no answer |
| OrchestratorSpec.DispatchPausedCovered | src/enclave/app-server.ts:352-354 | a paused container already paid for is deployed without being charged |
| OrchestratorSpec.ChargeRunning | src/enclave/app-server.ts:388-444 | a charge keeps the state; when it does not stop the monitor it is paid past the uptime counter on success and fails only right after `INSUFFICIENT_BALANCE` |
| OrchestratorSpec.DispatchDeployedOwing | src/enclave/app-server.ts:341-349 | a deployed container that owes is charged: it stays deployed once paid for, and is paused only after an `INSUFFICIENT_BALANCE` answer |
| OrchestratorSpec.DispatchPausedOwing | src/enclave/app-server.ts:355-360 | a paused container that owes and has the balance is charged: deployed once paid for, still paused after an `INSUFFICIENT_BALANCE` answer |
| OrchestratorSpec.DispatchWaitingSettled | src/enclave/app-server.ts:361-366 | a waiting container becomes deployed only when its invoice is settled, and is deployed then if its wallet client, the runtime and its row allow it |
| OrchestratorSpec.DispatchWaitingExpired | src/enclave/app-server.ts:596-630 | an expired unsettled launch invoice removes the container from memory and its row from the table; a failed or missing lookup changes neither |
| OrchestratorSpec.UptimeTickCounts | src/enclave/app-server.ts:150-156 | over distinct keys, when every container sits under its own pubkey and has its row, a pass runs to its end; each counted container it visits, deployed and not built in, has its uptime one higher in memory and that same value in its row; every other container and row, every other column, and the rest of the state are unchanged |
| OrchestratorSpec.Keyed | src/enclave/app-server.ts:84 | the map invariant: the insertion order lists every key once and no other, and each container sits under its own pubkey, as every `conts.set(cont.info.pubkey, cont)` and `conts.delete(cont.info.pubkey)` keeps it; it is part of the server's `Valid` |
| OrchestratorSpec.KeyedReplace | src/enclave/app-server.ts:153 | changing a container's fields other than its pubkey in place keeps the map invariant |
| OrchestratorSpec.KeyedPut | src/enclave/app-server.ts:693 | setting a container under its own pubkey keeps the map invariant, a new key going last in the order |
| OrchestratorSpec.KeyedRemove | src/enclave/app-server.ts:618 | deleting a container keeps the map invariant |
| OrchestratorSpec.HasEnoughBalance | src/enclave/app-server.ts:384-386 | `hasEnoughBalance`: one interval's price is within the container's balance; DispatchPausedOwing and DispatchLeavesAlone show it decides whether a paused container that owes is charged or left paused |
| OrchestratorSpec.Dispatch | src/enclave/app-server.ts:337-366 | one container's turn in the charge monitor, by state, upgrade mark and whether it owes; DispatchGrows, DispatchLeavesAlone, DispatchPausedCovered, DispatchDeployedOwing, DispatchPausedOwing, DispatchWaitingSettled and DispatchWaitingExpired state its effect in each case |
| OrchestratorSpec.ChargeTick | src/enclave/app-server.ts:336-367 | the charge monitor's pass over the map order at its start, skipping deleted keys and ending on an escaping exception or a stalled charge; ChargeTickGrows bounds its effect |
| OrchestratorSpec.UptimeOne | src/enclave/app-server.ts:151-154 | one container's turn in the uptime monitor: the in-memory count of a deployed, non-built-in container moves on, then its row takes the new count, and a missing row throws; its effect over a pass is UptimeTickCounts |
| OrchestratorSpec.UptimeTick | src/enclave/app-server.ts:150-156 | the uptime monitor's pass over the keys, ending at the first missing row; UptimeTickFrame, UptimeTickConts, UptimeTickRows and UptimeTickCounts state its effect |
| OrchestratorSpec.UptimeCounted | src/enclave/app-server.ts:150-156 | the state after a pass: one more uptime interval for each counted container among the keys, in memory and in its row, and nothing else changed |
| OrchestratorSpec.UptimeTickFrame | src/enclave/app-server.ts:150-156 | a pass, even one that throws, changes only the containers and the rows |
| OrchestratorSpec.UptimeTickConts | src/enclave/app-server.ts:151-153 | over distinct keys, with every container under its own pubkey and with its row, a pass runs to its end and bumps exactly the counted containers it visits, each by one |
| OrchestratorSpec.UptimeTickRows | src/enclave/app-server.ts:154 | under the same conditions, each counted container's row takes its new uptime, and no other row and no other column changes |
| OrchestratorStart.FreeFrom | src/enclave/app-server.ts:122-123 | the search ends on a start no container uses, at or above where it began |
| OrchestratorStart.AboveShrinks | src/enclave/app-server.ts:122-123 | each step of the search leaves fewer used starts ahead of it, so it ends |
| OrchestratorStart.GridStep | src/enclave/app-server.ts:118-123 | two grid points less than one range apart are the same |
| OrchestratorStart.FreeFromLeast | src/enclave/app-server.ts:118-123 | the search from the lowest start finds the least free start on the grid |
| OrchestratorStart.NewRecordFacts | src/enclave/app-server.ts:113-144 | a new record is waiting and unpaid with zero uptime and balance, units defaulting to 1 and name to its pubkey, on the least free range start, whose range overlaps no container's when all sit on the grid |
| OrchestratorStart.Put | src/enclave/app-server.ts:693 | adding to the map changes only that entry |
| OrchestratorStart.UpsertRow | src/modules/db.ts:109-155 | writing a row keeps the table's indexes, touches nothing in memory, and a refused write changes nothing |
| OrchestratorStart.Change | src/enclave/app-server.ts:97 | restarting at the stored state changes no row and adds or removes no container |
| OrchestratorStart.MoveToKeepsTable | src/enclave/app-server.ts:446-459 | recording a new state keeps the table's indexes and the set of containers |
| OrchestratorStart.EnsureWallet | src/enclave/app-server.ts:632-646 | the wallet set-up changes nothing of the container but its wallet pubkey |
| OrchestratorStart.EnsureWalletFacts | src/enclave/app-server.ts:632-646 | without a wallet nothing changes; with one the container records the wallet's pubkey and, when the wallet accepts its key, its client is cached; cached clients are never replaced |
| OrchestratorStart.LaunchRecord | src/enclave/app-server.ts:672-673 | a launched record is waiting and unpaid with zero uptime and balance, owned by the requester, under the generated pubkey, not built in, with units defaulting to 1 and name to its pubkey, on the least free port range start |
| OrchestratorStart.Invoice | src/enclave/app-server.ts:679-687 | the wallet set-up and invoice change only the client cache, and the container starts without app info and not upgrading |
| OrchestratorStart.LaunchChecksInOrder | src/enclave/app-server.ts:649-669 | "Retry later", "Specify docker url", "Specify units", "Not enough free units" and "Need more units for this image" come in that order, and a launch passes exactly when it meets all of them |
| OrchestratorStart.LaunchRefusedUnchanged | src/enclave/app-server.ts:649-669 | a refused launch changes nothing |
| OrchestratorStart.CommitFacts | src/enclave/app-server.ts:687-693 | a committed launch puts the container in memory under its pubkey, last in map order when new, and its row in the table when the name is free |
| OrchestratorStart.LaunchAdmitted | src/enclave/app-server.ts:648-700 | a launch that goes through passed every check and leaves a waiting container under the new pubkey, owned by the requester, with the invoice's payment hash and no app info |
| OrchestratorStart.LaunchAppends | src/enclave/app-server.ts:693 | a launch adds exactly its container and changes no other |
| OrchestratorStart.LaunchWritesRow | src/enclave/app-server.ts:687-690 | under a free name, a launch writes a waiting row with the payment hash and the requester as admin |
| OrchestratorStart.LaunchCommits | src/enclave/app-server.ts:672-693 | a launch that goes through is the commit of the invoiced container |
| OrchestratorStart.LaunchNameTakenLeavesNoRow | src/enclave/app-server.ts:687-693 | when another row has the requested name, the upsert rewrites that row, and the new container lives in memory with no row of its own |
| OrchestratorStart.UsedUnitsAppend | src/enclave/app-server.ts:654-656 | a new container adds its units to the in-memory total |
| OrchestratorStart.UsedUnitsFrame | src/enclave/app-server.ts:654-656 | a container outside the order does not count |
| OrchestratorStart.LaunchKeepsCapacity | src/enclave/app-server.ts:654-658 | a launch of a new pubkey adds its units and keeps the total within the capacity |
| OrchestratorStart.Builtin | src/enclave/app-server.ts:462-495 | a built-in entry keeps the table's indexes and the gate, and one without a name fails with "Name not specified for builtin" and changes nothing |
| OrchestratorStart.StartBuiltins | src/enclave/app-server.ts:461-496 | the built-in loop keeps the table's indexes and the gate |
| OrchestratorStart.BuiltinRecordFacts | src/enclave/app-server.ts:466-484 | a stored built-in keeps its key, token and range and takes the configured image, env and units; an unstored one is a new built-in record; neither is auto-upgraded |
| OrchestratorStart.BuiltinDeploys | src/enclave/app-server.ts:484-494 | a built-in entry that goes through had a name and leaves its record deployed in memory and in the table |
| OrchestratorStart.StartBuiltinsNamed | src/enclave/app-server.ts:464 | the built-ins start only when every entry is named |
| OrchestratorStart.LoadOne | src/enclave/app-server.ts:83-98 | loading one record puts it in memory and adds no other container |
| OrchestratorStart.LoadAll | src/enclave/app-server.ts:70-99 | loading keeps every container already in memory and leaves the gate |
| OrchestratorStart.StartContainers | src/enclave/app-server.ts:66-107 | `startContainers` opens the gate and keeps every container already in memory |
| OrchestratorStart.LoadAllAddsUsers | src/enclave/app-server.ts:71-84 | every container the loop adds is one of its non-built-in records |
| OrchestratorStart.LoadAllLoadsUsers | src/enclave/app-server.ts:71-84 | a loop that goes through has every non-built-in record in memory |
| OrchestratorStart.StartContainersAddsUsers | src/enclave/app-server.ts:66-84 | `startContainers` adds only stored non-built-in containers |
| OrchestratorStart.StartContainersLoadsUsers | src/enclave/app-server.ts:66-99 | when it goes through, every stored non-built-in container is in memory |
| OrchestratorStart.SetAppInfoOpensGate | src/enclave/app-server.ts:498-512 | the gate opens exactly when the wallet reports a changed pubkey, and once open a report only stores the app info |
| OrchestratorStart.NewRecord | src/enclave/app-server.ts:113-144 | `createContainerFromParams`: the record of a new container; NewRecordFacts states its fields and its port range |
| OrchestratorStart.LaunchCheck | src/enclave/app-server.ts:649-669 | the checks of `launch` in their order; LaunchChecksInOrder states which message each failing check gives |
| OrchestratorStart.Launch | src/enclave/app-server.ts:648-700 | `launch` on the snapshot; LaunchAdmitted, LaunchAppends, LaunchWritesRow, LaunchRefusedUnchanged and LaunchKeepsCapacity state its effect |
| OrchestratorStart.BuiltinRecord | src/enclave/app-server.ts:466-484 | the record a built-in entry starts from; BuiltinRecordFacts states which fields come from the stored record and which from the configuration |
| OrchestratorStart.SetAppInfo | src/enclave/app-server.ts:498-512 | `setContainerAppInfo` on the snapshot; SetAppInfoOpensGate states when it starts the stored containers |
| OrchestratorUpgrade.Before | src/enclave/app-server.ts:210 | the text up to the first occurrence of the separator, or all of it when it has none: the second piece of a split after a leading separator |
| OrchestratorUpgrade.DigestId | src/enclave/app-server.ts:207-210 | a digest's release id is the text right after its `sha256:` prefix, up to any later prefix |
| OrchestratorUpgrade.RestartedTransitive | src/enclave/app-server.ts:271-325 | two changes of one container's state, image and upgrading mark are one such change |
| OrchestratorUpgrade.RestartedKeepsTable | src/enclave/app-server.ts:271-327 | such a change keeps the table's indexes |
| OrchestratorUpgrade.SetUpgrading | src/enclave/app-server.ts:283-297 | setting or clearing the mark changes nothing else |
| OrchestratorUpgrade.SetDocker | src/enclave/app-server.ts:289 | switching the image in memory changes only the image |
| OrchestratorUpgrade.MoveToRestarts | src/enclave/app-server.ts:446-459 | a pause or deploy changes only that container's state and row, and reaches the state when the runtime succeeds |
| OrchestratorUpgrade.Upgrade | src/enclave/app-server.ts:271-327 | an upgrade or rollback changes only that container's state, image and mark; when it succeeds the container runs the new image, deployed and unmarked; when it fails the mark stays set |
| OrchestratorUpgrade.UpgradeGoesThrough | src/enclave/app-server.ts:271-299 | with a working runtime and an existing row, an upgrade succeeds |
| OrchestratorUpgrade.CommitUri | src/enclave/app-server.ts:235 | the commit changes only the container's row |
| OrchestratorUpgrade.TryRelease | src/enclave/app-server.ts:230-244 | trying one release changes only that container's state, image, mark and row |
| OrchestratorUpgrade.TryReleases | src/enclave/app-server.ts:198-248 | the candidate loop changes only that container's state, image, mark and row |
| OrchestratorUpgrade.UpgradeOne | src/enclave/app-server.ts:174-262 | one container's turn changes only that container's state, image, mark and row |
| OrchestratorUpgrade.UpgradeTick | src/enclave/app-server.ts:174-263 | a pass adds or removes no container and keeps the order, gate, clients and table indexes |
| OrchestratorUpgrade.UpgradeOneSkips | src/enclave/app-server.ts:175-192 | an ineligible container, or one with no release list, is left exactly as it was |
| OrchestratorUpgrade.NothingAcceptableChangesNothing | src/enclave/app-server.ts:203-228 | releases that fail the digest and label check are skipped without changing anything |
| OrchestratorUpgrade.SkipsToAcceptable | src/enclave/app-server.ts:219-228 | the first release tried is the first acceptable one |
| OrchestratorUpgrade.FirstSuccessCommits | src/enclave/app-server.ts:230-247 | an acceptable release whose upgrade succeeds is committed to the row and ends the loop, with the container deployed, unmarked and on the new image |
| OrchestratorUpgrade.FailureTriesNext | src/enclave/app-server.ts:236-247 | a failed upgrade leaves the mark set, so the next release is tried |
| OrchestratorUpgrade.TryReleasesVetted | src/enclave/app-server.ts:198-248 | the loop only switches to the image of an acceptable release |
| OrchestratorUpgrade.UpgradeOneVetted | src/enclave/app-server.ts:174-262 | after a pass the container runs either its old image or that of an acceptable release |
| OrchestratorUpgrade.UpgradeOneEndsClear | src/enclave/app-server.ts:198-254 | with a working runtime and an existing row, a pass ends with the container deployed and unmarked, by upgrade or by rollback |
| OrchestratorUpgrade.TryReleasesEndsDeployed | src/enclave/app-server.ts:198-248 | with a working runtime the candidate loop keeps the container deployed |
| OrchestratorUpgrade.UpgradeTickLeavesIneligible | src/enclave/app-server.ts:175-181 | a container ineligible at the start of a pass is left exactly as it was |
| OrchestratorUpgrade.UpgradeTickKeepsTable | src/enclave/app-server.ts:174-263 | a pass keeps the table's indexes |
| OrchestratorUpgrade.Eligible | src/enclave/app-server.ts:175-181 | the containers the upgrade monitor considers: deployed, not built in, with an image and the `auto` policy; UpgradeOneSkips and UpgradeTickLeavesIneligible show the others are left alone |
| OrchestratorUpgrade.Matches | src/enclave/app-server.ts:207-218 | the release and the registry agree on the `sha256:` image id, the repository and the version |
| OrchestratorUpgrade.Acceptable | src/enclave/app-server.ts:203-228 | a release is tried only when it names an image the registry knows and matches; NothingAcceptableChangesNothing, SkipsToAcceptable and TryReleasesVetted use it |
| Orchestrator.AppServer.constructor | src/enclave/app-server.ts:38-45 | a server over an open table starts with no container, no client and the launch gate closed |
| Orchestrator.AppServer.FindNamed | src/enclave/app-server.ts:545-547 | the search over the map in order finds the first container with the name |
| Orchestrator.AppServer.GetContainerByToken | src/enclave/app-server.ts:51-53 | the search finds the first container with the token |
| Orchestrator.AppServer.GetWalletPubkey | src/enclave/app-server.ts:544-553 | the wallet's pubkey, or the error, as specified |
| Orchestrator.AppServer.UsedUnitsNow | src/enclave/app-server.ts:654-656 | the units of all containers in memory |
| Orchestrator.AppServer.GetNwcForKey | src/enclave/app-server.ts:555-569 | the client lookup and cache update as specified; no container changes |
| Orchestrator.AppServer.MoveTo | src/enclave/app-server.ts:446-459 | `pause` and `deploy` change the state in memory and in the table as specified |
| Orchestrator.AppServer.UpdateBalance | src/enclave/app-server.ts:375-382 | the balance refresh as specified |
| Orchestrator.AppServer.PayClients | src/enclave/app-server.ts:394-395 | the two clients of a charge attempt, as specified |
| Orchestrator.AppServer.Extend | src/enclave/app-server.ts:411-412 | a paid interval in memory and in the row, as specified |
| Orchestrator.AppServer.Answer | src/enclave/app-server.ts:408-440 | the effect of the payment answer, as specified |
| Orchestrator.AppServer.TryPay | src/enclave/app-server.ts:393-440 | one charge attempt, as specified |
| Orchestrator.AppServer.Charge | src/enclave/app-server.ts:388-444 | the retry loop of `charge`, as specified |
| Orchestrator.AppServer.CheckWaitingPayment | src/enclave/app-server.ts:596-630 | the invoice check, as specified |
| Orchestrator.AppServer.Dispatch | src/enclave/app-server.ts:337-366 | one container's turn in the charge monitor, as specified |
| Orchestrator.AppServer.ChargeMonitorTick | src/enclave/app-server.ts:336-367 | one pass over the containers in the map order of its start, skipping removed ones |
| Orchestrator.AppServer.UptimeMonitorTick | src/enclave/app-server.ts:150-156 | one pass of the uptime monitor over the map order, as specified; when every container has its row it runs to its end, counts one more interval for exactly the deployed, non-built-in containers, in memory and in their rows, and changes nothing else |
| Orchestrator.AppServer.PortTaken | src/enclave/app-server.ts:122 | true exactly when some container in memory uses the start |
| Orchestrator.AppServer.CreateContainerFromParams | src/enclave/app-server.ts:113-144 | the new record, with the port search as specified |
| Orchestrator.AppServer.Put | src/enclave/app-server.ts:693 | adding to the map, as specified |
| Orchestrator.AppServer.EnsureWallet | src/enclave/app-server.ts:632-646 | the wallet set-up, as specified; no container changes |
| Orchestrator.AppServer.Invoice | src/enclave/app-server.ts:679-687 | the wallet set-up and invoice of a new container, as specified |
| Orchestrator.AppServer.Launch | src/enclave/app-server.ts:648-700 | `launch`, as specified |
| Orchestrator.AppServer.StartBuiltin | src/enclave/app-server.ts:462-495 | one built-in entry, as specified |
| Orchestrator.AppServer.StartBuiltins | src/enclave/app-server.ts:461-496 | `startBuiltin`, the entries in order, as specified |
| Orchestrator.AppServer.LoadOne | src/enclave/app-server.ts:83-98 | one stored record of `startContainers`, as specified |
| Orchestrator.AppServer.Change | src/enclave/app-server.ts:97 | `changeState` alone, as specified |
| Orchestrator.AppServer.StartContainers | src/enclave/app-server.ts:66-107 | `startContainers`, as specified |
| Orchestrator.AppServer.SetContainerAppInfo | src/enclave/app-server.ts:498-512 | `setContainerAppInfo`, as specified |
| Orchestrator.AppServer.SetUpgrading | src/enclave/app-server.ts:283-297 | setting or clearing the upgrading mark |
| Orchestrator.AppServer.Upgrade | src/enclave/app-server.ts:271-327 | `upgrade` and `rollback`, as specified |
| Orchestrator.AppServer.CommitUri | src/enclave/app-server.ts:235 | the row takes the new image, as specified |
| Orchestrator.AppServer.TryRelease | src/enclave/app-server.ts:230-244 | one candidate release, as specified |
| Orchestrator.AppServer.TryReleases | src/enclave/app-server.ts:198-248 | the loop over the new releases, newest first, as specified |
| Orchestrator.AppServer.UpgradeOne | src/enclave/app-server.ts:174-262 | one container's turn in the upgrade monitor, as specified |
| Orchestrator.AppServer.UpgradeMonitorTick | src/enclave/app-server.ts:174-263 | one pass of the upgrade monitor over the map order of its start, as specified |
| Orchestrator.AppServer.Valid | src/enclave/app-server.ts:84 | the table is well formed and the map keeps its invariant: its order lists each key once and no other, and each container sits under its own pubkey; every method that changes the server keeps it |
| Orchestrator.AppServer.CountUptime | src/enclave/app-server.ts:151-154 | one container's turn in the uptime monitor, as specified, keeping the invariant |
| Orchestrator.AppServer.CountUptimes | src/enclave/app-server.ts:150-156 | the uptime loop over the given keys, stopping at the first missing row, as specified |
| Orchestrator.AppServer.TryAt | src/enclave/app-server.ts:198-247 | one turn of the loop over the new releases: skipping an unacceptable one, or trying it and stopping once the container is no longer marked, as specified |
| Rpc.RespondFails | src/enclaved.ts:94-118 | a reply carries an error exactly when decryption or decoding failed, the request was incomplete, the method is unknown or `launch` failed, and it carries a result exactly when it carries no error |
| Rpc.RespondBadRequest | src/enclaved.ts:96-97 | a request without id, method or params is answered "Bad request" under the empty id |
| Rpc.RespondPing | src/enclaved.ts:31-34 | `ping` answers "pong" under the event id, whatever the request's id |
| Rpc.RespondLaunch | src/enclaved.ts:100-113 | `launch` goes to the derived server with the sender and the event id, and its reply keeps the request's id |
| Rpc.RespondInvalidMethod | src/enclaved.ts:46-47 | any other method is refused as "Invalid method" under the request's id |
| Rpc.BaseServerRefusesLaunch | src/enclaved.ts:36-38 | without an override `launch` is refused as not implemented |
| Rpc.ProcessEvent | src/enclaved.ts:85-128 | an event of another kind is ignored; an RPC event is answered exactly when its id is new, the id is recorded either way, and the reply is of the RPC kind, signed by the server and tagged with the sender |
| Rpc.ProcessAtMostOnce | src/enclaved.ts:87-88 | once an RPC event was processed, failed or not, any event with the same id is ignored |
| Rpc.ProcessAll | src/enclaved.ts:85-128 | a stream gives one output per event and never forgets a recorded id |
| Rpc.ProcessAllAnswersFirstSeen | src/enclaved.ts:86-88 | in a stream an event is answered exactly when it is of the RPC kind and its id was seen neither before the stream nor on an earlier RPC event of it |
| Rpc.RepliesOnce | src/enclaved.ts:86-88 | no two events of a stream with the same id are both answered |
| Rpc.EnclavedServer.constructor | src/enclaved.ts:85-88 | a new server has processed no event |
| Rpc.EnclavedServer.Process | src/enclaved.ts:85-128 | `process` records the id and answers as specified |
| Rpc.IsValidReq | src/enclaved.ts:51-82 | `isValidReq`: every method is valid, the per-method checks being commented out |
| Rpc.Respond | src/enclaved.ts:90-118 | the reply to one RPC event; RespondFails, RespondBadRequest, RespondPing, RespondLaunch and RespondInvalidMethod state its cases |
| ControlChannel.ContainerFor | src/enclave/container-server.ts:21-24 | the container found holds the presented token; none found means no container in map order holds it |
| ControlChannel.CheckHeadersAcceptsOwners | src/enclave/container-server.ts:26-28 | a connection is accepted exactly when some container holds its token, and never without a token |
| ControlChannel.Certify | src/enclave/container-server.ts:30-62 | "No pubkey for certificate" without a pubkey, a failure without a container, and otherwise the root certificate and two certificates: the service's for the container's key and the container's for the app's key |
| ControlChannel.TakeInfo | src/enclave/container-server.ts:64-74 | "No info for set_info" without info, a failure without a container, and otherwise `{ok: true}` with the server updated by `setContainerAppInfo` |
| ControlChannel.GetContainerInfo | src/enclave/container-server.ts:76-97 | "Invalid token" without a container, and otherwise its pubkey, balance, counters, units, wallet pubkey, interval and the price of one interval |
| ControlChannel.Respond | src/modules/ws-server.ts:53-80 | a message that is not JSON gets no reply and the connection closes; any other gets a reply with the request's id, whose error comes with an empty result |
| ControlChannel.UnknownMethodRepliesEmpty | src/enclave/container-server.ts:99-107 | an unknown method gets the initial empty reply and changes nothing |
| ControlChannel.OnlySetInfoChanges | src/enclave/container-server.ts:99-107 | only `set_info` changes the server |
| ControlChannel.PriceIsOneInterval | src/enclave/container-server.ts:92 | the price a container is shown is what one interval of the charge loop bills |
| ControlChannel.ContainerServer.constructor | src/enclave/container-server.ts:16-19 | the channel serves the given server |
| ControlChannel.ContainerServer.GetContainer | src/enclave/container-server.ts:21-24 | the container of a token, as specified |
| ControlChannel.ContainerServer.CheckHeaders | src/enclave/container-server.ts:26-28 | the connection check, as specified |
| ControlChannel.ContainerServer.OnMessage | src/modules/ws-server.ts:53-80 | a message is answered, and the server changed, as specified |
| ControlChannel.ContainerServer.CreateCertificate | src/enclave/container-server.ts:30-62 | `create_certificate`, as specified |
| ControlChannel.ContainerServer.SetInfo | src/enclave/container-server.ts:64-74 | `set_info`, as specified |
| ControlChannel.Handle | src/enclave/container-server.ts:99-107 | `handle` dispatches by method; UnknownMethodRepliesEmpty and OnlySetInfoChanges state that other methods do nothing and only `set_info` changes the server |
| Keycrux.Validate | src/modules/keycrux-client.ts:19-32 | an announcement is valid exactly when the validator says true; a validator that throws means invalid |
| Keycrux.Values | src/modules/keycrux-client.ts:53 | the accepted announcements in the order their pubkeys first joined the map |
| Keycrux.DedupSummarizes | src/modules/keycrux-client.ts:46-51 | the loop keeps only valid found announcements, one per pubkey, has every pubkey with a valid announcement, and keeps none older than another valid one of its pubkey |
| Keycrux.FetchOnePerPubkey | src/modules/keycrux-client.ts:46-53 | no two services found share a pubkey |
| Keycrux.FetchNewestValid | src/modules/keycrux-client.ts:44-53 | every service found is a valid announcement, and every pubkey with a valid one is found with one no older |
| Keycrux.OlderSkippedUnvalidated | src/modules/keycrux-client.ts:48-49 | an announcement older than the accepted one of its pubkey is skipped whatever the validator would say |
| Keycrux.FetchKeycruxServices | src/modules/keycrux-client.ts:34-54 | the loop computes the services as specified |
| Keycrux.FirstKeyLine | src/modules/keycrux-client.ts:63-66 | the first trimmed line that starts with the key prefix, or none exactly when no line does |
| Keycrux.SecretKey | src/modules/keycrux-client.ts:61-67 | "No age.key" for an empty file, "No key in age.key" exactly when no line holds a key, and otherwise a key with the prefix |
| Keycrux.KeyOnFirstLine | src/modules/keycrux-client.ts:63-66 | a file whose first line is a key yields that key |
| Keycrux.SplitPrefix | src/modules/keycrux-client.ts:64 | the first line of `key` newline `rest` is `key` |
| Keycrux.FirstNonZero | src/modules/keycrux-client.ts:153 | some non-zero byte exactly when the first PCR has one: the enclave is not in debug mode |
| Keycrux.SetParamsFor | src/modules/keycrux-client.ts:167-188 | `set` sends the key, the attestation and the repo, and adds the release signatures and the release signers exactly when they are given and the enclave is not in debug mode |
| Keycrux.GetParamsFor | src/modules/keycrux-client.ts:143-159 | `get` sends the attestation and the repo, and adds the release signatures exactly when given outside debug mode |
| Keycrux.SetResult | src/modules/keycrux-client.ts:190-195 | `set` is true exactly for the reply "ok", and fails exactly when sending fails |
| Keycrux.RelayTag | src/modules/keycrux-client.ts:75 | the value of the first `relay` tag with a value, none exactly when there is no such tag |
| Keycrux.ServiceRelay | src/modules/keycrux-client.ts:74-76 | the announced relay when non-empty, otherwise the default relay |
| Keycrux.Stored | src/modules/keycrux-client.ts:71-104 | no more stores than services |
| Keycrux.StoredAll | src/modules/keycrux-client.ts:85-100 | the count equals the number of services exactly when every one stored the key |
| Keycrux.StoredNone | src/modules/keycrux-client.ts:85-100 | the count is zero exactly when no service stored the key; failures and refusals count alike |
| Keycrux.Upload | src/modules/keycrux-client.ts:56-105 | a missing key fails with its message; otherwise the count of the services found that stored the key, at most their number |
| Keycrux.UploadKeycrux | src/modules/keycrux-client.ts:56-105 | `uploadKeycrux` as specified |
| Keycrux.CountStored | src/modules/keycrux-client.ts:71-104 | the counting loop counts the services that stored the key |
| Keycrux.Pause | src/modules/keycrux-client.ts:116 | ten minutes after more than one store, one minute otherwise |
| Keycrux.StartKeycrux | src/modules/keycrux-client.ts:107-119 | every successful round is followed by its pause, and the first failed upload ends the loop with its message |
| Keycrux.Consider | src/modules/keycrux-client.ts:48-50 | one announcement of the loop: skipped unvalidated when older than the accepted one of its pubkey, otherwise kept when it validates; OlderSkippedUnvalidated states the skip |
| Keycrux.Dedup | src/modules/keycrux-client.ts:46-51 | the loop over the found announcements; DedupSummarizes states what it keeps |
| Keycrux.FetchServices | src/modules/keycrux-client.ts:44-53 | `fetchKeycruxServices` after the query; FetchOnePerPubkey and FetchNewestValid state its result |

## Left out

- Wallet-connect client calls (`makeInvoice`, `payInvoice`, `lookupInvoice`, `getBalance`, `addPubkey`) are answers chosen by the `Oracles` parameter, because the relay protocol is I/O.
- Relay publishing and fetching, NIP-44 encryption, event signing and verification, and the WebSocket transport of src/modules/ws-server.ts are outside the model, because they are I/O and cryptography. Only the message loop of ws-server.ts is modelled.
- Attestation (the NSM driver, CBOR, X509 parsing) is an oracle or an input flag, because it is a hardware driver.
- sha256, key generation and `getPublicKey` are uninterpreted parameters or key generators, because they are cryptography.
- Docker and file-system side effects (`exec`, `writeFileSync`, `mkdir`) and the exact compose YAML text are left out, because they are I/O. Only the argument lists, names, sizes and the environment text are modelled.
- The `cpus = 0.1*units` quota is not modelled, because it is a float. The 0.8 image-size factor is the integer test `5*size > 4*units*50*1024*1024`.
- Sleeps, the `1000 - diff` throttling of the monitors and the interleaving of the background loops are left out, because they are timing. Each monitor is one tick over the containers in map order.
- The balance refresh that `charge` starts without awaiting it after a paid invoice (src/enclave/app-server.ts:420) is dropped, because its concurrency with the monitor is not modelled. After a `Paid` answer the model changes only the paid counter, and the balance stays as last read.
- The `startContainers` that `setContainerAppInfo` starts without awaiting it (src/enclave/app-server.ts:507) is modelled as if it completed in place, because its concurrency is not modelled.
- The forever loops (the monitors, `startKeycrux`, the proxies' accept loops) are modelled over one tick, one frame or a finite sequence of rounds, because an infinite loop has no final state.
- The newer `Container` class behind `changeState`, `startUpgrade`, `endUpgrade`, `isUpgrading`, `setBalance` and `get/setAppInfo` is not part of this model. Its effects are inferred from how src/enclave/app-server.ts uses it. `changeState` is an oracle outcome: it fails with a message, or it sets the in-memory state.
- `setContainerDockerUri` is called at src/enclave/app-server.ts:235 but not defined in src/modules/db.ts. It is modelled as a point update of the `docker` column that fails for an unknown pubkey, like the other setters.
- `getBalance`, `onWalletTx`, `shutdown`, `containerCount` and `getContext` of src/enclave/app-server.ts are not modelled, because they only forward to the wallet oracle or stop timers.
- The DEBUG `printLogs` call in deploy and all `console` logging are left out, because they are diagnostic output.
- The relay query of `fetchEvents` and its `since` bound are left out, because they are I/O. The events returned are a parameter of `checkUpgrade` and of `fetchKeycruxServices`.
- The `launch` handler of the derived enclaved server is a parameter of `Rpc`, because it is the application server's `launch` modelled elsewhere.
- Rpc: a failed handler's error is its exception's message. The `toString()` fallback at src/enclaved.ts:117, used when that message is empty, is not modelled, because the decoding oracle and `launch` report a message directly.
- `Common.Trim` treats only ASCII white space (space, tab, line feed, carriage return, vertical tab, form feed) as white space. JavaScript also trims Unicode space separators, which the model leaves out because strings carry no Unicode classes.
- Releases.SortBy: with a version fragment that is NaN (such as `1.3.0-rc1`), the comparator at src/modules/nostr.ts:534-542 is not consistent: `NaNFragmentIncomparable` shows that incomparability is not transitive. ECMAScript then leaves the sort order to the engine. The model fixes its own insertion order. With all-numeric versions the comparator is consistent and incomparable releases have equal versions (`NumericVersionsComparable`). Even then, the model does not state that releases of equal version keep their fetched order, as the source's stable sort does.
- Releases.SortNewest: the same, because it is `SortBy` with the release comparator. Its multiset is the source's in every case, and the model's order is newest first in every case.
- Releases.SortNewestIsNewestFirst: newest first is a property of the model's sort. The source promises it only with a consistent comparator. `NaNFragmentBreaksNewestFirst` exhibits an input order on which the source's comparator sees no inversion, yet that order is not newest first.
- Releases.CheckUpgrade: the set of returned releases is the source's in every case. Their order is the model's sort, which equals the source's only with a consistent comparator. It follows that the upgrade loop of `OrchestratorUpgrade.TryReleases` may try candidates in another order than an engine would when a version has a non-numeric fragment.
- Releases.CheckUpgradeResult: its membership half holds of the source in every case. Its newest-first half holds of the source only with a consistent comparator, such as all-numeric versions.
- Releases.NumberValue: `Number()` of a fragment is modelled after ASCII trimming: blank text is 0, and an optionally signed run of decimal digits is its value. Every other text is NaN in the model. The exponent forms (`1e3`), the hexadecimal, octal and binary forms (`0x10`), `Infinity`, and non-ASCII white space, which `Number()` also reads, are not modelled.
- OrchestratorStart.Launch: the requested `units` is an integer, with 0 standing for a missing or unparsable value. `parseInt` of text is not modelled, because it is JavaScript number parsing.
- The image size of a `launch` request is a parameter, because it comes from a registry inspect.
- `nsecEncode` of the key handed to containers is not modelled, because it is an encoding with no bearing on the state.
- src/docker.ts `stop`, `down` and `logs` are not modelled, because they are single compose calls like the ones `LegacyCompose` models.
- LegacyDocker: the registry inspect command line of `checkImage` (src/docker.ts:21-27) is not modelled, because running it is I/O. The check takes the command's exit code and the parsed layer sizes as inputs.
- LegacyContainer: `startAnnouncing` (src/enclave/container.ts:29-40) awaits the first `announce()` before it calls `setInterval`. So a first publish that throws registers no interval. The model counts an announcer on every false-to-true edge, because publishing is I/O and its failure is not modelled.
- VsockToTunIncoming models the TUN proxy per frame only. The connection loop follows the same structure as `VsockToIpIncoming.HandleConn`.

## Findings

| source | as written | input that shows it | evidently intended | confidence | as-written member | corrected member |
|---|---|---|---|---|---|---|
| src/db.ts:133-139 | the query aliases `MAX(ports_from)` as `pf` but the code reads `rec.ports_from`, which is undefined, so `getMaxPortsFrom` always returns 0 | a table with one row whose `ports_from` is 5000 | return the largest `ports_from` in the table | not executed | LegacyStore.DB.GetMaxPortsFromAsWritten, LegacyStore.MaxPortsFromAsWrittenExample | LegacyStore.DB.GetMaxPortsFrom |
| src/docker.ts:112-121, src/docker.ts:142-150 | the used-volume set holds bare hash tags, while compose creates the volumes as `<pubkey>_<tag>`, so cleanup puts the container's own volumes up for removal | a volume listing holding `<pubkey>_<tag>` for a tag of one of the image's volume paths, where the pubkey has no white space and at least 14 characters | keep the container's own volumes and remove only stale ones | not executed | LegacyDocker.ComposeNamedVolumeRemoved | RuntimeSpec.CleanupKeepsCreated |
