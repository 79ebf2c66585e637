# Option parsing and reply decoding in iproute2's `vdpa` tool and `tc` GRED qdisc

This project is a Dafny model of two command-line front ends from iproute2.
Both build Linux netlink attribute messages and read them back.

**vdpa** (`vdpa/vdpa.c`) manages vDPA devices.

- The option engine. Each command names the options it requires and the
  options it allows. `vdpa_argv_parse` first consumes an optional
  positional handle. It then consumes keyword/value pairs into the option
  record `struct vdpa_opts`. Next it checks the required options in a
  fixed table order. Finally `vdpa_opts_put` emits the present options as
  request attributes in a canonical order.
- Reply decoding:
  - `attr_cb` fills a type-indexed table;
  - the show callbacks check that table before printing;
  - the printers compute labels: feature names per set bit, supported
    classes, device type names, queue types, and the vendor statistics
    walk of `pr_out_dev_net_vstats`.

**GRED** (`tc/q_gred.c`) is the Generic Random Early Detection queueing
discipline.

- `init_gred` parses `setup vqs N default D [grio] [limit L]`.
- `gred_parse_opt` parses one virtual queue's parameters.
- Each builds a nested `TCA_OPTIONS` attribute.
- `gred_parse_vqs` walks the kernel's `TCA_GRED_VQ_LIST` with a byte
  cursor. It writes counters in place into a table of `MAX_DPs` (16)
  records.
- `gred_print_opt` and `gred_print_stats` decide three things:
  - which attributes of a dump are usable;
  - which rows are shown;
  - which source each row's counters come from.

The modules follow the program's structure:

| module | file | what it holds |
|---|---|---|
| `Types` | `types.dfy` | `Option`, fixed-width integers, little-endian encoding, fixed-width getters |
| `Netlink` | `netlink.dfy` | attribute wire format, the `RTA_OK`/`RTA_NEXT` walk, `parse_rtattr` (first attribute of a type wins), nests and their round trip |
| `VdpaUapi` | `vdpa_uapi.dfy` | attribute numbers and virtio constants of `linux/vdpa.h`, `virtio_ids.h`, `virtio_net.h` and `virtio_config.h` |
| `VdpaOptions` | `vdpa_options.dfy` | the option engine; `class VdpaOpts` is the option record that `vdpa_argv_parse` updates in place |
| `VdpaReply` | `vdpa_reply.dfy` | `attr_cb` over a table array, show-callback checks, feature/class/type/queue labels, the vstats walk |
| `GredWire` | `gred_wire.dfy` | GRED attribute numbers, `tc_gred_sopt` and `tc_gred_qopt` layouts and their round trips |
| `GredParse` | `gred_parse.dfy` | `init_gred` and `gred_parse_opt` |
| `GredVqs` | `gred_vqs.dfy` | `gred_parse_vqs` over an array of `tc_gred_info` |
| `GredPrint` | `gred_print.dfy` | the decisions of `gred_print_opt` and `gred_print_stats` |

Imperative code is modelled as Dafny methods with loops:

- the keyword loop;
- the required-option check;
- `attr_cb` and `mnl_attr_parse` over a table array;
- the vstats walk;
- both GRED parsers;
- the VQ-list walk over an array;
- the row loop of `gred_print_opt`.

Each method is proved equal to a specification function. The source's
promises are proved about those functions as lemmas.

Library functions that are not part of this model are parameters of
the model:

- `get_u16`, `get_u32`, `get_u64`, `get_unsigned`, `get_size`, `get_rate`,
  `get_percent_rate`, `ll_addr_a2n`, `strtol` and `sscanf("%lg")`;
- `tc_red_eval_ewma`, `tc_red_eval_P` and `tc_red_eval_idle_damping`;
- the conversion of the probability to `max_P`.

Some library routines are given bodies that follow their documented
behaviour:

- `matches` (prefix match);
- `get_str_char_count` and `str_split_by_char`;
- `parse_rtattr`;
- `mnl_attr_validate`;
- `RTA_OK`/`RTA_NEXT`.

The hazards of the C code are modelled as explicit outcomes. None is
silently fixed:

- A VQ-list entry whose length field is 0 never moves the cursor
  (`Spins`).
- A cursor one byte short of a length field (`LengthPastEnd`).
- A queue number used as an index without a bound check
  (`DpOutOfRange`).
- A missing `TCA_GRED_DPS` that is dereferenced (`DpsMissing`).
- The `mnl_attr_parse` verdict, which the callbacks ignore
  (`IgnoredParseError`).
- A vendor statistic value seen before any name, which C prints with an
  uninitialised format (`Stat(None, v)`, see `ValueBeforeName`).
- A vendor statistic name with no zero byte in its payload, which
  `strlen` reads past because the walk validates nothing
  (`NameOverread`, see `UnterminatedNameEndsWalk`).
- A VQ-list entry parsed from the whole remaining buffer instead of from
  the entry at the cursor: a stray attribute at the cursor is not
  reported when a later entry exists, and that entry is applied in the
  stray attribute's round (see `StrayAttributeUsesLaterEntry`).

## Model

| member | source | states |
|---|---|---|
| Types.Widen | tc/q_gred.c:315-343 | a fixed-width getter reads exactly its width; a payload long enough yields its leading bytes |
| Types.Le16RoundTrip | vdpa/vdpa.c:255-258 | a 16-bit value put little-endian reads back unchanged, whatever follows it |
| Types.Le32RoundTrip | tc/q_gred.c:110-111 | a 32-bit value put with addattr32 reads back unchanged |
| Types.Le64RoundTrip | vdpa/vdpa.c:261-263 | a 64-bit value put little-endian reads back unchanged |
| Types.Le64LowHalf | tc/q_gred.c:317-319 | reading 32 bits of a 64-bit counter yields its low half |
| Netlink.Wire | tc/q_gred.c:108-112 | an attribute occupies its header plus payload, rounded up to 4 bytes |
| Netlink.Nest | tc/q_gred.c:108-112 | a nest has the requested type and a 4-aligned payload |
| Netlink.FirstOf | tc/q_gred.c:415 | the table slot holds an attribute of that type from the message; it is empty iff no attribute has that type |
| Netlink.ParseRtattr | tc/q_gred.c:415 | the table has one slot per type up to the maximum |
| Netlink.ReadHeader | tc/q_gred.c:297 | the length and type fields of an encoded attribute read back as its length and type |
| Netlink.WalkWire | tc/q_gred.c:415 | walking an encoded attribute yields it, followed by the walk of what comes after |
| Netlink.WalkWireAll | tc/q_gred.c:415 | walking encoded attributes yields them in order |
| Netlink.NestRoundTrip | tc/q_gred.c:259-264 | walking a nest's payload gives back exactly its children |
| Netlink.FirstOfHead | tc/q_gred.c:415 | an attribute at the head of the message wins its slot |
| Netlink.FirstOfAppend | tc/q_gred.c:415 | in a concatenation, the first part's attribute of a type wins over the second's |
| GredWire.EncodeSopt | tc/q_gred.c:109 | tc_gred_sopt occupies 12 bytes |
| GredWire.SoptRoundTrip | tc/q_gred.c:428 | decoding an encoded tc_gred_sopt gives back every field |
| GredWire.EncodeQopt | tc/q_gred.c:260 | tc_gred_qopt occupies 52 bytes |
| GredWire.Le32sRead | tc/q_gred.c:260 | the k-th word of a run of 32-bit words reads back as written |
| GredWire.QoptHeadRead | tc/q_gred.c:429 | the ten leading words of tc_gred_qopt read back from their offsets |
| GredWire.QoptTailRead | tc/q_gred.c:429 | the four byte fields and the two trailing words read back from their offsets |
| GredWire.QoptRoundTrip | tc/q_gred.c:429 | decoding an encoded tc_gred_qopt gives back every field |
| GredParse.SetupWord | tc/q_gred.c:56-99 | one word of init_gred: "default" while no queue count is set is rejected; an accepted default is below the count; a count above MAX_DPs is rejected; the bounds on count, default and grio are kept |
| GredParse.SetupOptions | tc/q_gred.c:107-112 | the setup request is a TCA_OPTIONS nest |
| GredParse.InitGred | tc/q_gred.c:46-114 | the loop over the words computes exactly the outcome of the init_gred specification |
| GredParse.SetupLoopBounded | tc/q_gred.c:58-81 | after the loop, count ≤ MAX_DPs, default ≤ MAX_DPs and grio ≤ 1 |
| GredParse.SetupRoundTrip | tc/q_gred.c:107-112 | the nest holds TCA_GRED_DPS carrying the sopt, then TCA_GRED_LIMIT exactly when limit ≠ 0, and no PARMS |
| GredParse.SetupAccepted | tc/q_gred.c:101-113 | an accepted setup raises NLM_F_CREATE; its DPS decodes to 1 ≤ count ≤ MAX_DPs, default < MAX_DPs, grio ≤ 1; any LIMIT is a non-zero 32-bit value |
| GredParse.SetupLoopKeepsNoDefault | tc/q_gred.c:54-99 | without a "default" word, def_DP keeps its MAX_DPs marker |
| GredParse.DefaultRequired | tc/q_gred.c:101-104 | a setup without "default" always fails |
| GredParse.DefaultCanOutliveVqs | tc/q_gred.c:58-81 | "vqs 4 default 3 vqs 2" is accepted with count 2 and default 3: the default is not checked again |
| GredParse.Truncate8 | tc/q_gred.c:246-257 | storing into a __u8 field keeps the value modulo 256 |
| GredParse.ParamValue | tc/q_gred.c:134-210 | a value is produced only when a word follows the keyword and the parser accepts it |
| GredParse.ParamWord | tc/q_gred.c:133-220 | one word of gred_parse_opt: each accepted keyword adds one to ok; "setup" is delegated iff ok == 0, otherwise rejected; an accepted vq is below MAX_DPs; other keywords leave vq alone |
| GredParse.BurstDivisorNonZero | tc/q_gred.c:231-234 | with avpkt ≠ 0 the 32-bit divisor 3·avpkt is non-zero |
| GredParse.DefaultBurstExact | tc/q_gred.c:231-234 | without overflow the default burst is (2·min + max) / (3·avpkt) |
| GredParse.DefaultBurstWraps | tc/q_gred.c:232 | the 32-bit sum wraps: min = 2^31, max = 1, avpkt = 1 gives burst 0, not 0x55555555 |
| GredParse.ParamChildren | tc/q_gred.c:259-264 | the three attributes of a per-queue request are encodable |
| GredParse.ParamOptions | tc/q_gred.c:259-264 | the per-queue request is a TCA_OPTIONS nest |
| GredParse.Tune | tc/q_gred.c:231-257 | the RED evaluation changes only Wlog, Plog and Scell_log of the queue |
| GredParse.GredParseOpt | tc/q_gred.c:118-266 | the loop over the words computes exactly the outcome of the gred_parse_opt specification |
| GredParse.CompleteQueue | tc/q_gred.c:222-265 | the checks, defaults and RED evaluation after the loop compute exactly the specified outcome |
| GredParse.ParamLoopNoLateSetup | tc/q_gred.c:141-146 | once a keyword has been counted, "setup" can no longer be delegated |
| GredParse.SetupOnlyFirst | tc/q_gred.c:141-146 | "setup" as first word hands the rest to init_gred; a request with NLM_F_CREATE only comes from that path |
| GredParse.ParamLoopDpBounded | tc/q_gred.c:161-172 | the queue number after the loop is at most MAX_DPs |
| GredParse.Le32ReadBack | tc/q_gred.c:263 | the max_P word reads back as written |
| GredParse.QoptReadBack | tc/q_gred.c:260 | the tc_gred_qopt of the request decodes to the queue the parser built |
| GredParse.ParamRoundTrip | tc/q_gred.c:259-264 | the nest holds PARMS decoding to the queue, STAB, and MAX_P reading back as max_P, and no DPS |
| GredParse.ParamFinishSends | tc/q_gred.c:222-265 | a sent per-queue request has no NLM_F_CREATE and carries the parsed vq, limit, prio, min and max; it is sent only when some keyword was given (ok ≠ 0) and vq, limit, min, max and avpkt are all set and non-zero; it holds a 256-byte STAB and MAX_P |
| GredParse.ParamsAccepted | tc/q_gred.c:222-265 | every per-queue request comes from a keyword loop that ended normally with at least one keyword and a non-zero avpkt; it names a queue below MAX_DPs, has non-zero limit, min and max, a 256-byte STAB, MAX_P and no DPS |
| GredParse.ParamLoopKeepsNoVq | tc/q_gred.c:131 | without "vq"/"DP" the queue number keeps its MAX_DPs marker |
| GredParse.VqRequired | tc/q_gred.c:226-230 | without "vq"/"DP" no per-queue request is sent |
| GredVqs.ApplyStats | tc/q_gred.c:317-343 | the byte counter is either unchanged or a 32-bit value |
| GredVqs.NoStatNoChange | tc/q_gred.c:317-343 | an entry without counters leaves the record unchanged |
| GredVqs.Entry | tc/q_gred.c:293-343 | an applied round leaves a table of MAX_DPs records |
| GredVqs.VqsFrom | tc/q_gred.c:286-344 | the walk from the cursor keeps a table of MAX_DPs records |
| GredVqs.VqsWalk | tc/q_gred.c:280-345 | the walk of a whole list keeps a table of MAX_DPs records |
| GredVqs.WriteStats | tc/q_gred.c:317-343 | the array afterwards equals the old one with only info[dp] replaced by the updated record |
| GredVqs.HandleEntry | tc/q_gred.c:293-343 | one round on the array has the specified effect, and the array holds the new table exactly when the entry was applied |
| GredVqs.VqsStops | tc/q_gred.c:297-298 | one byte left stops the walk as LengthPastEnd; a zero length field stops it as Spins, with the table untouched |
| GredVqs.RestAfter | tc/q_gred.c:297-298 | advancing the offset by the entry's own length is the same as cutting that entry off the remaining bytes |
| GredVqs.VqsStep | tc/q_gred.c:286-344 | one round of the walk unfolded: the round's effect on the table and complaints, and where the walk goes on from |
| GredVqs.Round | tc/q_gred.c:293-343 | one round on the array either reports the out-of-range dp with the stopping walk, or leaves a state whose continuation equals the walk before it |
| GredVqs.ParseVqs | tc/q_gred.c:280-345 | the cursor loop leaves the array, together with its status, equal to the walk specification from the old table |
| GredVqs.WalkKeepsBytes32 | tc/q_gred.c:317-319 | a table whose byte counters fit in 32 bits keeps that property through the walk |
| GredVqs.ZeroTableBytes32 | tc/q_gred.c:317-319 | starting from the zeroed table, every byte counter the walk leaves fits in 32 bits |
| GredVqs.EntryNests | tc/q_gred.c:293-307 | each list entry is a TCA_GRED_VQ_ENTRY nest of its children |
| GredVqs.ChildTable | tc/q_gred.c:306-307 | the entry's table has one slot per TCA_GRED_VQ type |
| GredVqs.ApplyEntry | tc/q_gred.c:315-343 | applying a well-formed entry keeps MAX_DPs records |
| GredVqs.ApplyEntries | tc/q_gred.c:286-344 | applying a list of entries keeps MAX_DPs records |
| GredVqs.EntryAtCursor | tc/q_gred.c:295-296 | an entry at the cursor is found as TCA_GRED_VQ_ENTRY |
| GredVqs.NestTable | tc/q_gred.c:306-307 | the nested parse of an entry yields the table of its children |
| GredVqs.EntryOfNest | tc/q_gred.c:293-343 | a well-formed entry at the cursor is applied to the table |
| GredVqs.VqsHead | tc/q_gred.c:286-344 | the walk over a well-formed entry continues from the updated table past it |
| GredVqs.VqsOfEntries | tc/q_gred.c:286-344 | walking a list of well-formed entries finishes with no new complaint and with each entry's counters written, in list order |
| GredVqs.NoDpHead | tc/q_gred.c:306-313 | an encoded entry without TCA_GRED_VQ_DP at the cursor adds one "without DP" complaint, leaves the table untouched, and the walk continues after it |
| GredVqs.VqsOfEntriesThen | tc/q_gred.c:286-344 | walking well-formed entries followed by any bytes applies the entries in order with no complaint, then continues with those bytes |
| GredVqs.OneBadAmongGood | tc/q_gred.c:286-344 | well-formed entries around one entry lacking its queue number are all applied in order, and the walk ends with exactly one complaint |
| GredVqs.EntryPastStray | tc/q_gred.c:293-296 | parse_rtattr over the remaining bytes finds an entry that follows a stray non-entry attribute at the cursor |
| GredVqs.StrayAttributeUsesLaterEntry | tc/q_gred.c:293-304 | a stray non-entry attribute at the cursor, followed by an entry, draws no complaint: its round applies the later entry, then the entry's own round applies it again |
| GredPrint.PrintStats | tc/q_gred.c:347-397 | bytes come from the VQ list when parsed, else bytesin; the drop/mark counters come from the VQ list iff it was parsed; packets, qave and backlog come from the qopt |
| GredPrint.MaxPWords | tc/q_gred.c:420-422 | max_P is used iff present with a payload of at least 4·MAX_DPs bytes |
| GredPrint.LimitShown | tc/q_gred.c:424-426 | the limit is shown iff TCA_GRED_LIMIT is present with a payload of exactly 4 bytes, and the value shown is that 32-bit word |
| GredPrint.Qopts | tc/q_gred.c:456 | the PARMS payload is read as MAX_DPs tc_gred_qopt structures |
| GredPrint.RowOf | tc/q_gred.c:456-490 | a row shows the qopt's DP and limit; details iff show_details, with probability from max_P iff it is usable; stats iff show_stats, with bytes from infos[i] when the list was parsed |
| GredPrint.RowAt | tc/q_gred.c:457-458 | a position yields at most one row, and only for DP < MAX_DPs |
| GredPrint.RowsInRange | tc/q_gred.c:456-492 | at most one row per position, each with vq < MAX_DPs |
| GredPrint.ListRows | tc/q_gred.c:456-492 | the row loop computes exactly the rows of all MAX_DPs positions |
| GredPrint.ZeroInfos | tc/q_gred.c:401 | the zeroed counter table has MAX_DPs records |
| GredPrint.VqListWalk | tc/q_gred.c:436-439 | the VQ list is walked only with show_stats, over a table of MAX_DPs records |
| GredPrint.GredPrintOpt | tc/q_gred.c:399-495 | the printer computes exactly the specified outcome: nothing for no options, refusal, the rows, or the NULL-DPS hazard |
| GredPrint.PrintAcceptance | tc/q_gred.c:412-434 | refused iff PARMS is absent or DPS/PARMS are present but too short; a DPS-less dump with PARMS is the NULL-dereference hazard; a shown limit needs a 4-byte LIMIT |
| GredPrint.QoptTable | tc/q_gred.c:456 | a table of qopts takes 52 bytes each |
| GredPrint.QoptTableRead | tc/q_gred.c:456 | the i-th structure of an encoded table decodes to the i-th qopt |
| GredPrint.TableDecodes | tc/q_gred.c:456 | reading an encoded table of MAX_DPs qopts gives them back |
| GredPrint.PlainRowsUpTo | tc/q_gred.c:456-492 | without details, stats, max_P or VQ list, the rows equal the plain reference rows |
| GredPrint.DumpChildren | tc/q_gred.c:415-434 | a dump of PARMS, DPS and LIMIT is encodable |
| GredPrint.DumpTable | tc/q_gred.c:415 | parsing such a dump finds PARMS, DPS and LIMIT, and neither MAX_P nor VQ_LIST |
| GredPrint.ShownWithoutList | tc/q_gred.c:436-440 | without a VQ list or without show_stats, a printable dump is shown with no complaints |
| GredPrint.PrintThree | tc/q_gred.c:412-492 | a dump of long-enough PARMS and DPS and a 4-byte LIMIT is shown with the decoded count, default, grio, limit and rows |
| GredPrint.DumpReads | tc/q_gred.c:428-431 | the dump's payloads have the sizes the printer checks and decode to the encoded values |
| GredPrint.PrintDump | tc/q_gred.c:399-495 | printing a dump of sopt, 16 qopts and a limit shows exactly that count, default, grio, limit and one row per qopt whose DP < MAX_DPs |
| VdpaOptions.Errno | vdpa/vdpa.c:171-202 | every error is negative; -1 exactly for a failed number parser, -EINVAL otherwise |
| VdpaOptions.CharCount | vdpa/vdpa.c:124 | the slash count is at most the length and is zero iff there is no slash |
| VdpaOptions.CharCountAppend | vdpa/vdpa.c:124 | the count of a concatenation is the sum of the counts |
| VdpaOptions.IndexOf | vdpa/vdpa.c:138 | the position of the first occurrence of the separator |
| VdpaOptions.SplitByChar | vdpa/vdpa.c:138 | the two parts joined by the separator give back the string, and the first part has no separator |
| VdpaOptions.ArgvHandle | vdpa/vdpa.c:111-143 | no token → HandleExpected; more than one slash → HandleFormat; otherwise a handle: no slash → no bus and the whole token as name; one slash → bus "/" name is the token, with no slash in either part |
| VdpaOptions.Overlay | vdpa/vdpa.c:156-169 | the address parser's bytes overwrite the start of the ETH_ALEN-byte field, which keeps its size |
| VdpaOptions.Selected | vdpa/vdpa.c:293-363 | the selected option is offered for the keyword and comes first in the loop's order among those offered; none iff no option is offered (name, mgmtdev, mac, mtu gated by required∪optional; max_vqp, qidx, device_features by optional) |
| VdpaOptions.ParseValue | vdpa/vdpa.c:145-202 | a successful value sets the selected option to what its value helper makes of the token; it fails exactly when no setting of that option is parsed from the token, and a failure is never "unknown option" |
| VdpaOptions.KeywordStep | vdpa/vdpa.c:292-364 | a successful pair sets the first offered option to its parsed value; "Unknown option" iff the keyword offers nothing; the pair is accepted exactly when the keyword offers an option and that option's helper parses the value |
| VdpaOptions.KeywordLoopUnfold | vdpa/vdpa.c:292-364 | with two tokens left, the loop stops on a failed pair or applies it, records its flag and goes on two tokens later |
| VdpaOptions.RequiredCheckFromOk | vdpa/vdpa.c:216-235 | validation succeeds iff required ⊆ found |
| VdpaOptions.RequiredCheckFromFirst | vdpa/vdpa.c:222-233 | a missing-option message is the first missing flag in table order; the BUG message only when no table flag is missing |
| VdpaOptions.ValidateRequired | vdpa/vdpa.c:216-235 | the table loop computes the specified status, which is Ok iff required ⊆ found |
| VdpaOptions.Slots | vdpa/vdpa.c:237-265 | eight attribute slots in canonical rank order |
| VdpaOptions.Emit | vdpa/vdpa.c:237-265 | emission from slot i yields at most one attribute per remaining slot |
| VdpaOptions.OptsPut | vdpa/vdpa.c:237-265 | at most eight attributes are emitted |
| VdpaOptions.EmitMembers | vdpa/vdpa.c:237-265 | an attribute is emitted iff some slot from i on is put with it |
| VdpaOptions.EmitOrdered | vdpa/vdpa.c:237-265 | emitted attributes follow the canonical order, each of rank ≥ i |
| VdpaOptions.OptsPutOrdered | vdpa/vdpa.c:237-265 | the request attributes are in canonical order, whatever order the arguments came in |
| VdpaOptions.OptsPutMembers | vdpa/vdpa.c:237-265 | each slot's attribute is emitted iff its condition on present holds, and nothing else is emitted |
| VdpaOptions.VdpaOpts.constructor | vdpa/vdpa.c:1098 | the record starts zero-filled with nothing present |
| VdpaOptions.VdpaOpts.ApplySetting | vdpa/vdpa.c:292-364 | one pair writes its option's field and leaves present unchanged |
| VdpaOptions.VdpaOpts.ArgvParse | vdpa/vdpa.c:267-369 | the record afterwards and the return value are those of the vdpa_argv_parse specification; the record stays consistent |
| VdpaOptions.VdpaOpts.ArgvParsePut | vdpa/vdpa.c:371-382 | attributes are emitted from the parsed record iff parsing returned 0 |
| VdpaOptions.KeywordLoopProperties | vdpa/vdpa.c:292-366 | the loop only adds flags from required∪optional, each with its value set, and never changes present |
| VdpaOptions.ParsePresent | vdpa/vdpa.c:270-366 | after a completed loop present equals exactly the flags consumed, a subset of required∪optional, including the positional handle; on an early error present is unchanged |
| VdpaOptions.ParsePreservesConsistent | vdpa/vdpa.c:267-369 | every present flag has its value set after parsing, whatever the outcome |
| VdpaOptions.KeywordLoopStoppedConsistent | vdpa/vdpa.c:292-364 | a loop stopped by an error leaves a consistent record |
| VdpaOptions.ParseSucceedsIffRequiredFound | vdpa/vdpa.c:366-368 | after a completed loop, parsing succeeds iff every required flag is present |
| VdpaOptions.TrailingTokenIgnored | vdpa/vdpa.c:292 | a single token left after the pairs is ignored |
| VdpaOptions.ApplyCommutes | vdpa/vdpa.c:292-364 | settings of different options commute |
| VdpaOptions.SwapPairs | vdpa/vdpa.c:292-364 | swapping two accepted pairs of different options gives the same result |
| VdpaOptions.DevAddMinimal | vdpa/vdpa.c:730-745 | "dev add name N mgmtdev M" succeeds with exactly those two flags and emits MGMTDEV_DEV_NAME then DEV_NAME |
| VdpaOptions.NamesOnlyRequest | vdpa/vdpa.c:237-265 | a record holding only the two names emits exactly the management device name then the device name |
| VdpaOptions.DevAddWithoutName | vdpa/vdpa.c:737-740 | "dev add mgmtdev M" fails with "device name is not set." |
| VdpaOptions.QidxRejectedOutsideVstats | vdpa/vdpa.c:341-363 | "dev show DEV qidx V" fails with an unknown option: qidx is offered only where it is optional |
| VdpaReply.TypeOf | vdpa/vdpa.c:103 | the type drops the two flag bits |
| VdpaReply.EmptyTable | vdpa/vdpa.c:593 | every slot of the callbacks' table starts empty |
| VdpaReply.AttrCbSpec | vdpa/vdpa.c:95-109 | a type above VDPA_ATTR_MAX is skipped with OK; a policy violation returns ERROR and leaves the table; otherwise OK with only tb[type] set to the attribute |
| VdpaReply.AttrCb | vdpa/vdpa.c:95-109 | the callback on the array has the specified verdict and table |
| VdpaReply.MnlAttrParse | vdpa/vdpa.c:596 | the loop over the message has the specified verdict and table |
| VdpaReply.LastOfType | vdpa/vdpa.c:107 | the last attribute of a type from the message; none iff no attribute has that type |
| VdpaReply.LastDuplicateWins | vdpa/vdpa.c:95-109 | after a successful parse each slot holds the last attribute of its type, or its old value |
| VdpaReply.ErrorSticks | vdpa/vdpa.c:104-105 | after an ERROR, later attributes change nothing |
| VdpaReply.PolicyViolationStops | vdpa/vdpa.c:104-105 | a policy violation ends the parse with the table as it was before it |
| VdpaReply.Needed | vdpa/vdpa.c:693-705 | the attributes a show callback requires lie within the table |
| VdpaReply.Filled | vdpa/vdpa.c:598 | the set of occupied slots |
| VdpaReply.ShowCallback | vdpa/vdpa.c:693-705 | a show callback returns OK iff every attribute it requires was stored |
| VdpaReply.IgnoredParseError | vdpa/vdpa.c:836-847 | a reply whose parse failed can still pass the config-show callback, because the parse verdict is ignored |
| VdpaReply.SetBits | vdpa/vdpa.c:528-530 | exactly the set bits from i upward, in ascending order |
| VdpaReply.DeviceTable | vdpa/vdpa.c:520-521 | a device feature table exists iff the device is a network device |
| VdpaReply.FeatureLabel | vdpa/vdpa.c:532-540 | transport bits use the shared table, other bits the network table only for a network device, and bit_N when unnamed |
| VdpaReply.OneLabelPerSetBit | vdpa/vdpa.c:513-544 | exactly one label per set bit, in ascending bit order |
| VdpaReply.TransportLabelsShared | vdpa/vdpa.c:532-535 | transport-range labels do not depend on the device |
| VdpaReply.UnnamedBitsFallBack | vdpa/vdpa.c:537-538 | features 0b101 of device 0 print bit_0 and bit_2 |
| VdpaReply.NoBitsFrom | vdpa/vdpa.c:528-541 | no set bit from i on gives no label |
| VdpaReply.ConfigFeatureLabels | vdpa/vdpa.c:810-846 | a configuration reply is refused iff it lacks DEV_NAME or DEV_ID; feature names are printed iff it is accepted, its full 32-bit DEV_ID is VIRTIO_ID_NET and it carries NEGOTIATED_FEATURES; the 16-bit id then passed to print_features is always VIRTIO_ID_NET, so the names are the network ones |
| VdpaReply.ConfigRejectedIffCallback | vdpa/vdpa.c:836-846 | the configuration view refuses a reply exactly when the show callback's table check does |
| VdpaReply.ConfigWideIdNotNet | vdpa/vdpa.c:821-834 | a DEV_ID of 0x10001, whose low 16 bits are the network id, prints no feature names: the switch on the full id sends it past the network configuration |
| VdpaReply.ParseClass | vdpa/vdpa.c:444-456 | a class has a name iff it is net or block |
| VdpaReply.ClassLabelsSpec | vdpa/vdpa.c:555-567 | one class label per set bit, in ascending order |
| VdpaReply.NetClassListed | vdpa/vdpa.c:555-567 | "net" is listed iff the net class bit is set |
| VdpaReply.MgmtdevFeatureDevice | vdpa/vdpa.c:577-585 | network feature names are used iff the net class bit is set, otherwise device 0 |
| VdpaReply.DeviceTypeName | vdpa/vdpa.c:654-661 | 1 is "network", 2 is "block", anything else "<unknown type>" |
| VdpaReply.TypeNamesMatchClasses | vdpa/vdpa.c:654-661 | a type has a name iff its class has one |
| VdpaReply.HandleText | vdpa/vdpa.c:670-676 | the handle is "bus/name" with a bus, the name alone without |
| VdpaReply.HandleTextRoundTrip | vdpa/vdpa.c:670-676 | a printed handle parses back to the same bus and name |
| VdpaReply.QueueLabel | vdpa/vdpa.c:897-915 | control_vq iff CTRL_VQ is negotiated and qidx == 2·max_vqp; otherwise tx iff qidx is odd |
| VdpaReply.QueueNumbering | vdpa/vdpa.c:897-915 | with n queue pairs and CTRL_VQ, queues 2k are rx, 2k+1 tx, and 2n is the control queue |
| VdpaReply.CStr | vdpa/vdpa.c:938 | the string is the payload up to its first zero byte; the walk applies it only to a payload that holds one |
| VdpaReply.VstatsStep | vdpa/vdpa.c:926-950 | one case of the switch: it stops iff the name has no zero byte in its payload (printing NameOverread) or is longer than MAX_KEY_LEN (printing nothing); otherwise it updates the variables and prints as specified |
| VdpaReply.NetVstats | vdpa/vdpa.c:917-951 | the walk prints exactly the fold over the attributes |
| VdpaReply.VstatsSplit | vdpa/vdpa.c:926-950 | the walk over a concatenation is the walk over the first part, then the second from the state it left, unless it stopped |
| VdpaReply.LongNameEndsWalk | vdpa/vdpa.c:937-940 | nothing after a name longer than 200 characters, or one with no terminating zero byte, is printed |
| VdpaReply.UnterminatedNameEndsWalk | vdpa/vdpa.c:926-939 | a name with no zero byte in its payload, which strlen reads past, ends the walk after what came before it with NameOverread |
| VdpaReply.VstatsSettingsFirst | vdpa/vdpa.c:926-936 | max_vqp and features given before the queue index make queue 2 the control queue |
| VdpaReply.VstatsQueueFirst | vdpa/vdpa.c:926-936 | the same attributes after the queue index leave it rx: settings affect only later queues |
| VdpaReply.CtrlVqMask | vdpa/vdpa.c:903 | BIT(VIRTIO_NET_F_CTRL_VQ) is 0x20000 |
| VdpaReply.GetU64Le64 | vdpa/vdpa.c:932 | a 64-bit value reads back with mnl_attr_get_u64 |
| VdpaReply.ValueBeforeName | vdpa/vdpa.c:919-947 | a value before any name is printed without a name (the C format is uninitialised there) |
| VdpaReply.DevVstats | vdpa/vdpa.c:953-966 | a device that is not a network device prints no statistics; a network device prints exactly the vendor statistics walk |

## Left out

- Printing and JSON output: `print_*`, `pr_out_*`, `sprint_size`, `open_json_*`, section and array helpers. The model computes the labels and values they would print.
- Sockets, message preparation and send/receive (`mnlu_gen_socket_*`), the `cmd_*` wrappers beyond their option masks, command dispatch, help texts, `vdpa_init`/`vdpa_fini`, `vdpa_alloc`/`vdpa_free` and `main`. This is I/O and routing only.
- Floating point:
  - the probability is kept as its text;
  - `max_P = probability · 2^32` is a parameter;
  - the printed probability `max_P[i] / 2^32` is kept as the raw `max_P` word of row i.
- The RED evaluators and the number, size, rate and link-layer address parsers. They are library code that is not part of this model, so they are parameters with no contract beyond their result type.
- `NEXT_ARG()` exits the process when a keyword is the last word. This is modelled as the `Incomplete` outcome.
- The GRED warning "Burst seems to be too large" (stderr only).
- The "set burst"/"set bandwidth" notices (stderr only).
- Messages printed before each error return. The error itself is modelled.
- `pr_out_dev_net_config`'s mac, link, max_vq_pairs and mtu lines, and the vendor id, max_vqs and max_vq_size lines of `pr_out_dev`, and the max_supported_vqs line of `pr_out_mgmtdev_show`. Only their feature-name and device-id decisions are modelled.
- The `device_id` field of `struct vdpa_opts`. No option writes it.
- Fixed-size text buffers. `sprintf` into `mgmtdev_buf[128]` and `SPRINT_BUF`, and `strcpy` into `fmt`, are not bounded in the model.
- Netlink.ParseRtattr: does not mask the NLA_F_NESTED bit that `parse_rtattr_nested` clears from attribute types. Types are compared as they arrive, which agrees whenever the sender leaves that bit clear, as the kernel's GRED dump does.
- VdpaReply.MnlAttrParse: takes the message as a sequence of attributes that the libmnl walk has already split. The byte-level walk of `mnl_attr_for_each` is not repeated for the vdpa side.
- Types.Widen: the C getters read a fixed width from payloads that may be shorter. The model zero-extends a short payload instead of reading the bytes that follow it in memory.
