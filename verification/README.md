# pg-strom core, modelled in Dafny

This project models the sequential logic at the heart of pg-strom, a PostgreSQL extension that runs scans and joins on GPUs. Four parts are modelled: the device-expression code generator and its catalog, the host-side GpuJoin bookkeeping, the Arrow record-batch statistics and layout checks, and the Arrow metadata-cache slab allocator. Every operation is written as a pure function or a small method over datatypes, sequences and maps. Contracts and lemmas state what the C code promises its callers.

- **Device catalog** (`xpu_opcodes.dfy`, `devcatalog.dfy`).
  - The built-in table of device types and functions from `next/xpu_opcodes.h`.
  - The memoised resolution of PostgreSQL types and functions to device types and functions. Negative answers are memoised too, except that as compiled a negative function answer with arguments is filed where it is not found again (see Findings).
  - Matching of a function's argument pattern (`int4/int8`, variadic `__text__`), via `strtok.dfy`.
  - The cache invalidator.
- **Expression code generator** (`kexp.dfy`, `codegen_expr.dfy`, `codegen_loadvars.dfy`, `codegen_proj.dfy`, `codegen_groupby.dfy`, `pack_index.dfy`).
  - The byte image of a `kern_expression` node (`KernExp.KNode`: header fields, an opaque payload and children): header, children, 4-byte padding, magic trailer and back-patched length. It is proved to decode back to the `KNode` it came from. The walker builds a richer tree (`CodegenExpr.XNode`, with type names and per-opcode info); the step from that tree to a `KNode` is not modelled, so the round trip covers `KNode` only.
  - The expression walker, with its slot allocator that deduplicates column references.
  - The LoadVars lists.
  - Scan quals, projection, packed join quals and hash keys.
  - The group-by key hash, key load, key comparison and aggregate actions.
- **GpuJoin host side** (`gpujoin_info.dfy`, `inner_kds.dfy`, `inner_preload.dfy`, `join_exec.dfy`, `fallback.dfy`).
  - The plan-private round trip.
  - Growth and compaction of an inner buffer, and hash keys and bucket chains.
  - The layout of all inner buffers and outer-join maps in one shared segment, and the reference count of a segment shared by sibling plans.
  - The task-buffer layout and the walk over the RIGHT/FULL depths.
  - The OR-merge of the per-device outer-join maps.
  - The CPU fallback state machine, including the decoding of a suspended kernel's thread counter.
- **Arrow** (`arrow_types.dfy`, `arrow_stats.dfy`, `arrow_batch.dfy`, `arrow_slab.dfy`).
  - `__atoi128` and the per-record-batch min/max statistics: parse, build and apply.
  - The consumption of a record batch's field nodes and buffers, with its length and 8-byte alignment checks, as the Apache Arrow Columnar Format describes them.
  - The slab allocator of the shared metadata cache: the active counts, the magic words and the free lists.

Shared pieces: `wrappers.dfy` (the `Result`/`Option` types) and `align.dfy` (the TYPEALIGN family, and little-endian images).

Some calls go into PostgreSQL or CUDA: syscache lookups, `ExecQual`, hash functions and tuple extraction. They are parameters of the model: an oracle value, a sequence of qual outcomes, or an opaque hash.

Some constants are declared in headers that are not part of this model:
- KERN_EXPRESSION_MAGIC and the `kern_expression` header layout;
- KEXP_FLAG__IS_PUSHED_DOWN and KAGG_ACTION__VREF;
- the size of `kern_variable`.

These are fixed once, as named constants, and the properties hold for the values chosen. MAXALIGN is 8, as on every 64-bit platform PostgreSQL supports, and BLCKSZ is 8192.

## Model

| member | source | states |
|---|---|---|
| XpuOpcodes.LocaleIsPlainWithFlag | next/xpu_opcodes.h:50-54 | `__FUNC_LOCALE_OPCODE` is `__FUNC_OPCODE` plus the locale-aware flag, and both name the device function after the SQL function and mark it executable on any device |
| XpuOpcodes.SlotbufTypes | next/xpu_opcodes.h:19-41 | exactly numeric and interval keep their values in the kvars slot buffer |
| XpuOpcodes.TypeExtensions | next/xpu_opcodes.h:19-41 | int1 and float2 come from the pg_strom extension and every other device type is built in |
| XpuOpcodes.Flatten | next/xpu_opcodes.h:56-602 | the flat function catalog holds exactly the rows of its groups |
| XpuOpcodes.OnlyDateToTimestamptzUsesTimezone | next/xpu_opcodes.h:482 | date_to_timestamptz is in the catalog and is the only row that depends on the session time zone |
| XpuOpcodes.OtherGroupsNoTimezone | next/xpu_opcodes.h:56-602 | no group other than the date casts holds a row that depends on the session time zone |
| XpuOpcodes.TextCollationRows | next/xpu_opcodes.h:572-586 | for text and bpchar, equality and inequality ignore the collation while the orderings follow it; length(bpchar) depends on the collation and length(text) does not |
| XpuOpcodes.UnaryRowsAsWritten | next/xpu_opcodes.h:221-245 | as written, the int4 and int8 rows of unary plus, unary minus and absolute value declare an int2 argument, unlike every other row of those groups |
| XpuOpcodes.UnaryRowsIntended | next/xpu_opcodes.h:221-245 | corrected, every row of those three groups takes the type its name starts with |
| DevCatalog.FindTypeEntry | src/codegen.c:82-90 | finds the first device-type catalog entry whose extension (or its absence) and name both match, and answers none exactly when no entry matches |
| DevCatalog.BaseType | src/codegen.c:258-260 | corrected, following a domain to its base ends at a type that is not a domain, at no deeper a level than the starting type; it fails exactly when the type is missing |
| DevCatalog.ResolveAsWritten | src/codegen.c:161-300 | as written, a domain is not device-executable, and through the element and field lookups neither is an array or composite built on one; otherwise the answer is the corrected one, it is "not device-executable" wherever the corrected one is, and on a catalog without domains the two agree |
| DevCatalog.ResolveFieldsAsWritten | src/codegen.c:157-168 | as written, a composite's fields resolve as in the corrected resolution, except that a field type built on a domain makes the composite not device-executable |
| DevCatalog.ArrayOfDomainRefused | src/codegen.c:202-205 | as written, an array whose element type is a domain is not device-executable |
| DevCatalog.ArrayOfDomainAsWritten | src/codegen.c:202-205 | as written, the array type beside a domain over int4 gets a negative entry |
| DevCatalog.ArrayOfDomainIntended | src/codegen.c:202-214 | corrected, that array type is an array device type carrying the element's device kinds and the slot-buffer flag |
| DevCatalog.DomainAsWritten | src/codegen.c:258-300 | as written, a domain over int4 gets a negative entry: the walk stops at a domain row, which no branch accepts |
| DevCatalog.DomainIntended | src/codegen.c:258-260 | corrected, a domain over int4 is the int4 device type under the domain's own oid |
| DevCatalog.ResolveFuncAsWritten | src/codegen.c:612-626 | as compiled, a function resolves to the corrected device function or to none; it is none wherever the corrected resolution is, raises only catalog errors, and on a catalog without domains it is the corrected resolution |
| DevCatalog.ResolveFuncBuildAsWritten | src/codegen.c:612-626 | as compiled, the result type and then each argument type go through the type lookup that refuses domains; a device function found is the corrected one, and on a catalog without domains the two builds agree |
| DevCatalog.ResolveEachAsWritten | src/codegen.c:766-775 | as compiled, the negative entry's argument lookups succeed wherever the corrected ones do, and on a catalog without domains they fail alike |
| DevCatalog.BuildBasic | src/codegen.c:62-137 | a built-in type outside pg_catalog, or one with no catalog entry, is not device-executable; otherwise the device type keeps the oid, takes code and flags from the first matching entry, and keeps its own name unless the entry is an alias |
| DevCatalog.AsWrittenAliasFree | src/codegen.c:45-48 | as compiled, no entry of the device type catalog carries an alias, the varchar and cidr rows included |
| DevCatalog.AsWrittenNeverCasts | src/codegen.c:93-116 | so as compiled, building a base type never fails: the binary-cast checks are never reached |
| DevCatalog.AliasAsWritten | src/codegen.c:45-48 | as compiled, varchar keeps its own name with a binary cast to text, and is accepted without one |
| DevCatalog.AliasIntended | src/codegen.c:93-116 | with the alias in place, varchar takes the name of text through the binary cast, and without the cast it is an error |
| DevCatalog.CommonFlags | src/codegen.c:154-168 | a composite keeps exactly the device-kind flags that every one of its field types has |
| DevCatalog.LookupAgrees | src/codegen.c:232-309 | from a consistent memo, a type lookup answers exactly what a fresh resolution answers, error or device type or negative entry, and leaves a consistent memo that keeps every old entry and now holds the type |
| DevCatalog.LookupFieldsAgree | src/codegen.c:157-168 | looking up a composite's field types through the memo agrees with resolving them afresh and keeps the memo consistent and growing |
| DevCatalog.SkipSame | src/codegen.c:666-673 | the variadic loop stops at the first later argument of another type, or at the end; every argument it passes has the variadic type |
| DevCatalog.ScanIntendedSpec | src/codegen.c:645-682 | from a plain prefix, the intended token loop reaches the end of tokens and arguments exactly when the pattern accepts the argument list |
| DevCatalog.MatchIntendedIff | src/codegen.c:645-682 | the intended loop accepts exactly one plain token per argument type name, or a plain prefix followed by a last `__T__` whose T names the next argument's type and which every later argument shares |
| DevCatalog.ScanAsWrittenPlain | src/codegen.c:645-682 | as written, when no argument type name ends in '_', the loop from a plain prefix reaches the end exactly when every token is plain and names its argument's type |
| DevCatalog.MatchAsWrittenOnlyPlain | src/codegen.c:655-670 | as written, a `__T__` token never matches, so the loop accepts only one plain token per argument |
| DevCatalog.VariadicTextToken | src/codegen.c:647-649 | the argument string `__text__` splits on '/' into the single token `__text__` |
| DevCatalog.VariadicTextPattern | src/codegen.c:655-660 | as written, two text arguments are refused by the pattern `__text__`, because only the last '_' is cleared before the name comparison |
| DevCatalog.VariadicTextIntended | src/codegen.c:655-673 | corrected, two text arguments are accepted by the pattern `__text__` |
| DevCatalog.FindFuncRow | src/codegen.c:632-684 | finds the first function catalog row with matching extension, name and accepting argument pattern, and answers none exactly when no row matches |
| DevCatalog.ChooseFunc | src/codegen.c:627-700 | a device function exists exactly when the function is from an extension or lives in pg_catalog and some catalog row matches; it then carries the first matching row's code, flags and cost with the resolved return and argument types |
| DevCatalog.BuildFuncArgsAgree | src/codegen.c:620-700 | building a function through the type memo agrees with building it afresh and keeps the memo consistent and growing |
| DevCatalog.BuildFuncAgrees | src/codegen.c:599-707 | devfunc_build through the type memo answers what a fresh build answers, leaving a consistent memo that keeps its old entries |
| DevCatalog.LookupEachAgrees | src/codegen.c:770-782 | looking up every argument type for a negative entry fails exactly when a fresh resolution of one of them fails, with the same message, and otherwise leaves a consistent, growing memo |
| DevCatalog.FuncMissAgrees | src/codegen.c:751-784 | a function-memo miss answers what a fresh resolution answers and keeps the type memo consistent and growing |
| DevCatalog.Admit | src/codegen.c:785-791 | a found function is refused exactly when a valid collation that is not C meets a locale-aware function; otherwise it is returned unchanged |
| DevCatalog.FuncLookupAgrees | src/codegen.c:716-796 | from consistent memos, a function lookup fails exactly when a fresh resolution fails, and otherwise answers the fresh answer after the collation check, leaving consistent memos that keep every old entry |
| DevCatalog.FuncLookupIdempotent | src/codegen.c:734-751 | corrected, asking the same question twice gives the same answer and leaves the memos as the first call left them |
| DevCatalog.FuncLookupAsWritten | src/codegen.c:737-778 | as written, a lookup only ever adds the asked key to the function memo and keeps every old entry |
| DevCatalog.AsWrittenAnswers | src/codegen.c:737-796 | the misfiled entry costs no answer: as written a lookup fails, or answers, exactly as the corrected one, and leaves the same type memo |
| DevCatalog.AsWrittenForgetsNegative | src/codegen.c:754-778 | as written, a function with no device implementation whose hash slot is not its argument count is not remembered, so the next call misses again |
| DevCatalog.IntendedKeepsNegative | src/codegen.c:754-781 | corrected, the same negative answer is remembered under its key |
| DevCatalog.InvalidateThenLookup | src/codegen.c:2872-2879 | after the invalidator empties the memos, the next lookup answers from the current system catalogs, whatever they were before |
| StrTok.TokensFrom | src/codegen.c:647-649 | strtok_r never yields an empty token and no token holds the delimiter |
| StrTok.TokensOfJoin | next/arrow_fdw.c:691-708 | splitting on a delimiter what was joined from delimiter-free, non-empty tokens gives back exactly those tokens |
| KernExp.Magic | src/codegen.c:906-908 | the trailer magic fits a 32-bit word whatever the 16-bit result type and opcode |
| KernExp.Put32 | src/codegen.c:910 | back-patching a 32-bit word changes only those four bytes, which then read back as the value |
| KernExp.CloseNodeFrame | src/codegen.c:896-911 | closing a node keeps every byte before its head and after its length word, makes the length word the distance from the head to the new end, and ends the buffer with the magic of the header's codes after padding to 4 bytes |
| KernExp.CloseNodeEncodes | src/codegen.c:896-911 | a header emitted with a zero length, followed by the body and then closed, is exactly the node's encoding |
| KernExp.EncodeHeader | src/codegen.c:896-911 | every header field of an encoded well-formed node reads back as written; the length word is the node's size and the trailer holds its magic |
| KernExp.DecodeEncode | src/codegen.c:896-911 | reading back the bytes of a well-formed node recovers its header fields, its payload and, recursively, every child |
| KernExp.EncodeInjective | src/codegen.c:896-911 | two well-formed nodes with the same bytes look the same to every reader |
| CodegenExpr.InitCtx | src/codegen.c:888-894 | a fresh context keeps only the device-kind bits of the required flags and starts with no slots and no cost |
| CodegenExpr.RelRef | src/codegen.c:1253-1279 | a scan relation provides exactly its own Vars, under their attribute numbers; a path target provides exactly its expressions, under the 1-based position of the first equal one |
| CodegenExpr.FindInput | src/codegen.c:1249-1285 | the first input relation that provides the expression, with its depth and attribute number; none exactly when no input relation provides it |
| CodegenExpr.FindSlot | src/codegen.c:1288-1297 | the first slot holding the (depth, resno) pair; none exactly when no slot holds it |
| CodegenExpr.SlotFor | src/codegen.c:1288-1305 | an already-known (depth, resno) pair gets its first slot and the slot list is unchanged; a new pair gets a new slot appended at the end |
| CodegenExpr.SlotForUnique | src/codegen.c:1288-1305 | allocating a slot for an input reference never creates a second slot for the same pair, and asking again returns the same slot |
| CodegenExpr.SlotType | src/codegen.c:1300-1303 | a slot records a type only when the device type needs the slot buffer, and then records that type |
| CodegenExpr.TypeOf | src/codegen.c:232-309 | the walker's type lookup: a device type it finds is the corrected one; with domains refused, as compiled, a domain is not device-executable; otherwise, or on a catalog without domains, it is the corrected resolution |
| CodegenExpr.FuncOf | src/codegen.c:786-816 | the walker's function lookup: a device function it finds is the corrected one with the collation test applied; with domains not refused, or on a catalog without domains, it is the corrected resolution under that test |
| CodegenExpr.MatchInput | src/codegen.c:1241-1309 | an expression no input relation provides is not a reference; one that is gets a slot naming its depth and attribute number, the context changing only by that new slot and its expression |
| CodegenExpr.AppendUnique | src/codegen.c:1008 | the used parameters gain the parameter once and keep every earlier one |
| CodegenExpr.VarNode | src/codegen.c:1014-1043 | a Var leaf refers to the given slot and carries the context's flags |
| CodegenExpr.ConstNode | src/codegen.c:915-970 | a constant of a type other than base, enum, range or domain is refused; otherwise the leaf records its type, null flag and value (no value when null); a walk that generates refuses a non-null by-reference constant of fixed length with "unsupported type length", and a walk that only checks never raises that error |
| CodegenExpr.WalkChecking | src/codegen.c:933-946 | a walk without an output buffer ends as the generating walk does (the same node, the same context but for the checking mark) wherever generation succeeds or fails with any error but the length error; and that error comes only from a tree holding such a constant |
| CodegenExpr.WalkAllChecking | src/codegen.c:1074-1080 | the same for the arguments walked in order |
| CodegenExpr.WalkCheckingAgrees | src/codegen.c:933-946 | on a tree without such a constant, checking and generating succeed together, with the same node and cost, and otherwise fail with the same error |
| CodegenExpr.FixedByRefChecked | src/codegen.c:933-946 | such a constant, outside every input relation and of a device type: generation raises the length error, while the check accepts it and leaves the context as it was |
| CodegenExpr.ParamNode | src/codegen.c:973-1011 | only external parameters are accepted; the leaf records the parameter id, which joins the used parameters while the slots stay unchanged |
| CodegenExpr.Walk | src/codegen.c:1312-1353 | a walked expression only adds slots, references, cost and parameters to the context; every node carries the context's flags and refers only to slots that exist; input slots stay unique |
| CodegenExpr.WalkBool | src/codegen.c:1109-1155 | AND and OR need two or more arguments and NOT exactly one; the node has a bool result and one child per argument |
| CodegenExpr.WalkTest | src/codegen.c:1158-1232 | null tests and boolean tests have a bool result, the test's opcode and one child |
| CodegenExpr.WalkCall | src/codegen.c:1046-1106 | a function or operator call becomes a function node with one child per argument |
| CodegenExpr.WalkAll | src/codegen.c:1074-1080 | walking the arguments in order yields one node per argument, each referring only to slots that exist at the end |
| CodegenExpr.WalkInputRef | src/codegen.c:1317-1320 | a reference to an input relation becomes a Var leaf on the slot of its (depth, resno) pair |
| CodegenExpr.WalkDispatch | src/codegen.c:1322-1350 | any other expression is dispatched by kind, and a Var of no input relation or an unsupported kind is refused |
| CodegenLoadVars.CollectMembers | src/codegen.c:1388-1412 | the forthree loop takes exactly the slots of the requested depth, in increasing slot order, each with its slot's column number |
| CodegenLoadVars.CollectOffsets | src/codegen.c:1398-1408 | an untyped slot gets offset 0; a typed one the next boundary of its type at or after the running offset, its value ending before every later typed value |
| CodegenLoadVars.Insert | src/codegen.c:1359-1370 | inserting by column number keeps the list sorted and adds exactly the new item |
| CodegenLoadVars.SortByResno | src/codegen.c:1413-1419 | the qsort by column number yields a sorted permutation of the items |
| CodegenLoadVars.LoadVarsContents | src/codegen.c:1373-1435 | a LoadVars node of depth d is a leaf holding exactly the slots of depth d, sorted by column number, each with its slot's column number |
| CodegenLoadVars.LoadVarsOffsets | src/codegen.c:1384-1408 | every typed slot lies past the per-slot kern_variable and int headers, on its type's boundary, and two typed slots never overlap, the lower slot id lying lower; untyped slots get offset 0 |
| CodegenLoadVars.CollectDisjoint | src/codegen.c:1398-1408 | the typed values placed for one depth never overlap |
| CodegenLoadVars.ScanLoadVars | src/codegen.c:1438-1451 | the scan's LoadVars node is always built, has depth 0, and holds exactly the slots of depth 0, sorted by column number, each with its slot's column number |
| CodegenLoadVars.MaxDepth | src/codegen.c:1463-1469 | the largest depth of any input-relation slot, or -1 when none has one |
| CodegenLoadVars.JoinLoadVars | src/codegen.c:1453-1505 | the join LoadVars node has one packed entry per depth from 1 to the largest, entry d-1 being the LoadVars node of depth d |
| CodegenLoadVars.JoinLoadVarsCovers | src/codegen.c:1453-1505 | there is no join LoadVars node exactly when no slot refers to a joined relation; otherwise every such slot is loaded by the entry of its depth and by no other |
| CodegenProj.ScanQuals | src/codegen.c:1511-1535 | no quals give no code; otherwise the generated qual evolves the context and carries its flags |
| CodegenProj.ScanQualsConjunction | src/codegen.c:1520-1526 | several quals become one bool AND node with a child per qual, and fail exactly when walking one of them fails |
| CodegenProj.ReuseAsWritten | src/codegen.c:1567-1588 | as written, the reuse loop finds a reusable synthetic slot exactly when one exists, but always reports the starting slot id |
| CodegenProj.Reuse | src/codegen.c:1567-1588 | corrected, the reuse loop reports the first synthetic slot whose target-list entry is the expression, and none exactly when there is no such slot |
| CodegenProj.ReuseAsWrittenMisreports | src/codegen.c:1567-1588 | with a scanned column in slot 0 and a computed target in slot 1, the loop as written reports slot 0, which does not hold the expression, where the first reusable slot is 1 |
| CodegenProj.TlistFind | src/codegen.c:1593-1597 | the first target-list entry whose expression is equal, and none exactly when no entry is |
| CodegenProj.InjectNew | src/codegen.c:1597-1628 | a new synthetic slot, appended with depth -1 and the entry's column number, is filled by a SaveExpr node with one child that saves into it |
| CodegenProj.InjectProjection | src/codegen.c:1541-1632 | the result is -1 exactly when the expression is no input reference, has no reusable slot and is not on the target list; -1 leaves the context unchanged; only a new slot comes with a SaveExpr node |
| CodegenProj.InjectProjectionHolds | src/codegen.c:1541-1632 | the slot an injection reports provides the value of the expression, as an input column or as the synthetic slot of its target-list entry |
| CodegenProj.InjectProjectionIdempotent | src/codegen.c:1541-1632 | injecting the same expression again reports the same slot, adds no node and changes nothing |
| CodegenProj.InjectedSlotReused | src/codegen.c:1567-1628 | after a new synthetic slot is added for an expression, the reuse loop finds that slot first |
| CodegenProj.MatchInputIdempotent | src/codegen.c:1288-1298 | matching an input reference twice reports the same slot and adds nothing the second time |
| CodegenProj.ProjectEntry | src/codegen.c:1673-1691 | a valid target entry gets a slot providing its value and at most one SaveExpr node; an expression that cannot be found is an error |
| CodegenProj.ProjectEntries | src/codegen.c:1656-1692 | junk entries must come last (a valid entry after a junk one is an error); every valid entry, in order, gets a slot that provides its value |
| CodegenProj.BuildProjection | src/codegen.c:1638-1714 | the Projection node has one slot per valid target entry, in target-list order, each providing that entry's value, and only SaveExpr nodes as children |
| CodegenProj.WalkQuals | src/codegen.c:1741-1761 | every join qual must be of type bool; the quals are walked in order, one node each |
| CodegenProj.BuildJoinQuals | src/codegen.c:1720-1766 | no quals give no node; otherwise a bool JoinQuals node with the join quals then the other quals as children, exactly the other quals carrying the pushed-down flag, the context's flags being restored afterwards |
| CodegenProj.JoinQualsNode | src/codegen.c:1732-1765 | the JoinQuals node: one child per qual, the join quals with the context's flags and the other quals with the pushed-down flag added |
| CodegenProj.Pack | src/codegen.c:1783-1827 | a Packed node records, in increasing order, exactly the positions whose part is present, each with its part as child; nothing when no part is present |
| CodegenProj.JoinQualsEach | src/codegen.c:1797-1815 | one entry per depth, absent exactly when that depth has neither join nor other quals |
| CodegenProj.PackedJoinQuals | src/codegen.c:1772-1828 | no node exactly when no depth has quals; otherwise a Packed node of one position per depth, present exactly for the depths with quals, each a JoinQuals node |
| CodegenProj.BuildHashValue | src/codegen.c:1834-1865 | no keys give no node; otherwise a HashValue node with one child per key |
| CodegenProj.HashValueEach | src/codegen.c:1891-1905 | one entry per depth, absent exactly when that depth has no hash keys |
| CodegenProj.PackedHashKeys | src/codegen.c:1868-1919 | no node exactly when no depth has hash keys; otherwise a Packed node present exactly for the depths with keys, each a HashValue node |
| CodegenGroupby.SyntheticCount | src/codegen.c:1943-1963 | at most one synthetic slot per slot of the range |
| CodegenGroupby.GroupbyReuseAsWritten | src/codegen.c:1942-1963 | as written, the loop finds a reusable slot exactly when the corrected loop does, but reports its id counting only the synthetic slots before it |
| CodegenGroupby.GroupbyReuseAsWrittenMisreports | src/codegen.c:1942-1963 | with a scanned grouping key in slot 0 and an injected key in slot 1, the loop as written reports slot 0 for the injected key, where the first reusable slot is 1 |
| CodegenGroupby.GroupbyReuseAsWrittenAgrees | src/codegen.c:1942-1963 | when no input-relation slot precedes, the loop as written reports the right slot |
| CodegenGroupby.GroupbyKey | src/codegen.c:1925-2027 | an input column or reusable synthetic slot becomes a Var node on that slot; a key found nowhere is appended to the target list as a junk entry with the next column number, a new synthetic slot on that column and a SaveExpr node; the slot provides the key's value |
| CodegenGroupby.GroupbyNew | src/codegen.c:1965-2005 | a key found nowhere gets a junk target-list entry, a new synthetic slot on its column, and a SaveExpr node saving into that slot |
| CodegenGroupby.GroupbyKeys | src/codegen.c:2056-2062 | every grouping key, in order, gets a slot that provides its value and a Var or SaveExpr node on that slot |
| CodegenGroupby.KeyHash | src/codegen.c:2033-2071 | a HashValue node with one child per key, each reading or saving the key's input slot |
| CodegenGroupby.ValidEntry | src/codegen.c:2091-2097 | the first non-junk target-list entry whose expression is the key, and none exactly when there is none |
| CodegenGroupby.FinalSlots | src/codegen.c:2087-2107 | each key gets a new slot of depth -2 on the column of its first valid target-list entry, appended in key order; a key with no valid entry is an error and nothing else in the context changes |
| CodegenGroupby.KeyLoad | src/codegen.c:2077-2119 | the keys' final-buffer slots, and a LoadVars node of depth -2 that loads every one of them; an error exactly when a key has no valid target-list entry |
| CodegenGroupby.EqualFunc | src/codegen.c:839-851 | a type without an equality function has no device equality function |
| CodegenGroupby.KeyCompOne | src/codegen.c:2139-2196 | a key's comparison applies its equality function to its input slot and its final-buffer slot; a key type without an equality function is an error |
| CodegenGroupby.KeyComp | src/codegen.c:2125-2224 | one key gives its comparison; several give a bool AND of their comparisons in key order; a key type without an equality function is an error |
| CodegenGroupby.InjectSlot | src/codegen.c:2268-2295 | the slot of an expression, injected if need be, provides its value; an expression found nowhere is an error |
| CodegenGroupby.AggArgs | src/codegen.c:2281-2305 | the first argument's slot goes to arg0, the second's to arg1, each providing its argument's value; a third argument is an error |
| CodegenGroupby.AggAction | src/codegen.c:2257-2306 | a VREF action reads the slot of its own target entry; another action reads the slots of its function's arguments |
| CodegenGroupby.GroupbyActions | src/codegen.c:2230-2334 | an AggFuncs node with one descriptor per action in target-list order, each VREF descriptor reading a slot that provides its entry's value, and only SaveExpr nodes as children |
| CodegenGroupby.BuildGroupby | src/codegen.c:2340-2355 | with keys there is a key hash, a key load and a key comparison, and each key's comparison reads the input slot hashed for it and the final-buffer slot loaded for it; without keys only the actions |
| CodegenGroupby.XpuExpression | src/codegen.c:2361-2392 | as written for the Const length test, and for domains as the catalogs' resolution switch says: no quals answer false, and an error is raised only for a failure other than the walker's refusals, which answer false at DEBUG2 |
| CodegenGroupby.XpuExpressionAgrees | src/codegen.c:2361-2392 | where scan-qual generation on a fresh context succeeds, the check accepts with the device cost generation charges; where generation fails with any error but the length error, the check answers false for a refusal and raises anything else; and without a fixed-length by-reference constant among the quals it is the corrected check |
| CodegenGroupby.XpuExpressionIntended | src/codegen.c:2361-2392 | corrected, no quals answer false, and neither a refusal nor the length error is raised |
| CodegenGroupby.XpuExpressionIntendedAgrees | src/codegen.c:2361-2392 | corrected, the check answers true with generation's device cost exactly when scan-qual generation succeeds, false exactly when generation refuses or meets the length error, and raises any other error as generation does |
| CodegenGroupby.DomainVarRefused | src/codegen.c:1014-1024 | with domains resolved as compiled, a scanned column of a domain type as the only qual makes both the check and the corrected check answer false |
| CodegenGroupby.DomainVarAccepted | src/codegen.c:1014-1024 | with domains resolved through their base type, a scanned column whose type resolves to a device type is accepted by both checks at no device cost |
| CodegenGroupby.DomainColumnCheck | src/codegen.c:1014-1024 | a column of the domain `posint` over int4: as compiled the check answers false; resolved through the base type, it answers true at cost 0 |
| CodegenGroupby.XpuQualFixedByRef | src/codegen.c:2378-2386 | the expression the check walks holds a fixed-length by-reference constant exactly when one of the quals does |
| CodegenGroupby.FixedByRefConstAccepted | src/codegen.c:933-946 | a non-null fixed-length by-reference constant of a device type as the only qual: the check as written accepts it at cost 0, generation raises "unsupported type length", and the corrected check answers false |
| PackIndex.Present | src/codegen.c:1796-1815 | the positions recorded for a Packed node all hold a present part |
| PackIndex.PresentSorted | src/codegen.c:1796-1815 | the recorded positions increase, as the loop visits the depths in order |
| PackIndex.PresentAll | src/codegen.c:1796-1815 | a position is recorded exactly when its part is present |
| Align.TypeAlign | src/codegen.c:1400 | TYPEALIGN rounds up by less than one alignment unit |
| Align.AlignedAfterAlign | src/codegen.c:1400 | a TYPEALIGN result sits on a boundary of the alignment |
| Align.TypeAlignLeast | src/codegen.c:1400 | no boundary of the alignment lies between a value and its TYPEALIGN |
| Align.BitmapLen | next/arrow_fdw.c:983 | BITMAPLEN gives the fewest bytes whose bits cover every item |
| Align.UnLEofLE | src/codegen.c:906-910 | a little-endian image of a value that fits the width reads back as the value |
| GpuJoinInfo.U64ToLong | src/gpujoin.c:102 | storing the unsigned 64-bit key in a signed long keeps it modulo 2^64 |
| GpuJoinInfo.LongToU64 | src/gpujoin.c:145 | reading the long back as an unsigned 64-bit value keeps it modulo 2^64 |
| GpuJoinInfo.LongToI32 | src/gpujoin.c:133 | reading a long into an int keeps the value modulo 2^32, and exactly when it fits |
| GpuJoinInfo.Form | src/gpujoin.c:85-122 | form_gpujoin_info writes twenty private entries and seven expression lists |
| GpuJoinInfo.Deform | src/gpujoin.c:125-166 | deform_gpujoin_info reads a record exactly when both lists have the kinds and lengths that form_gpujoin_info writes |
| GpuJoinInfo.DeformForm | src/gpujoin.c:85-166 | reading back what form_gpujoin_info wrote gives the same record, the 64-bit key included |
| GpuJoinInfo.FormDeform | src/gpujoin.c:85-166 | any well-shaped pair of lists whose integers fit their C fields is exactly what writing back the record read from them gives |
| InnerKds.PackedShift | src/gpujoin.c:6291 | for an 8-byte multiple, adding or subtracting its packed form moves the unpacked offset by exactly that many bytes |
| InnerKds.ExpandedLength | src/gpujoin.c:6275-6281 | the new KDS length is 8-aligned, at most 16GB, no smaller than the old length, and larger when the segment is at least two bytes long |
| InnerKds.RowMovedUp | src/gpujoin.c:6287-6291 | a row index entry advanced in 32-bit arithmetic by the packed growth does not wrap, and points at the same place inside the moved tuple block |
| InnerKds.RowMovedDown | src/gpujoin.c:6321-6326 | a row index entry moved back in 32-bit arithmetic by the packed shift does not wrap, and points at the same place inside the moved tuple block |
| InnerKds.AddToRows | src/gpujoin.c:6290-6291 | every row index entry is advanced by the same amount, modulo 2^32 |
| InnerKds.SubFromRows | src/gpujoin.c:6325-6326 | every row index entry is moved back by the same amount, modulo 2^32 |
| InnerKds.Expand | src/gpujoin.c:6259-6296 | a KDS of 4GB or more is refused; otherwise the segment grows to one and a half times its length rounded up to BLCKSZ, the KDS takes what follows its offset up to 16GB and never shrinks, and it still holds the same rows |
| InnerKds.Compact | src/gpujoin.c:6303-6329 | a hole larger than 32KB between head and tuples is closed, the KDS then ending right after its tuples; a smaller hole leaves the KDS alone; the rows stay the same either way |
| InnerKds.MoveDown | src/gpujoin.c:6321-6327 | after the move the tuple block directly follows the head and the KDS holds the same rows |
| InnerKds.FinishHeap | src/gpujoin.c:6415-6418 | after compaction a row-format buffer is refused only when still longer than UINT_MAX, which can happen only when its contents alone reach 4GB or the hole was too small to close; a buffer under 4GB is never refused |
| InnerKds.NonNull | src/gpujoin.c:6239-6241 | the keys left after NULL keys are skipped are all non-NULL and no more than the keys given |
| InnerKds.HashKeys | src/gpujoin.c:6203-6253 | when every key is NULL the finished legacy CRC-32 is zero, as inverting the untouched initial state gives |
| InnerKds.FoldAllNull | src/gpujoin.c:6227-6247 | NULL keys leave the running CRC state untouched |
| InnerKds.HashIgnoresNulls | src/gpujoin.c:6227-6247 | only the non-NULL keys, in order, decide the hash value |
| InnerKds.NonNullIdem | src/gpujoin.c:6239-6241 | skipping NULL keys twice is the same as skipping them once |
| InnerKds.KeptRowsMembers | src/gpujoin.c:6364-6366 | an inner row is kept exactly when one of its join keys is non-NULL or the join is neither INNER nor LEFT |
| InnerKds.PreloadRows | src/gpujoin.c:6350-6370 | the hash items are the kept inner rows in scan order, each with the hash of its keys |
| InnerKds.ChainAppend | src/gpujoin.c:6384-6387 | adding an item does not change any chain that existed before |
| InnerKds.BuildChains | src/gpujoin.c:6371-6388 | each hash slot's chain lists exactly the items whose hash falls in that slot, newest first, and every link points backwards so every chain ends |
| InnerKds.BucketMembers | src/gpujoin.c:6384 | an item is in a slot's bucket exactly when its hash modulo the slot count is that slot |
| InnerKds.BucketDescending | src/gpujoin.c:6385-6386 | a bucket lists its items newest first |
| InnerKds.ChainFindsAll | src/gpujoin.c:6371-6388 | walking the chain of the slot a hash value selects finds every item with that hash value, newest first, and nothing from other slots |
| InnerPreload.OjmapsUsage | src/gpujoin.c:6535-6541 | the outer-join map usage stays on 16-byte boundaries |
| InnerPreload.PreloadLayout | src/gpujoin.c:6441-6581 | the load is skipped exactly when some depth has no rows and only inner joins lie at and below it; otherwise each depth's buffer follows the aligned header one after another with the flags its join type calls for, each RIGHT or FULL depth owns a run of the outer-join map, and the segment needs the buffers plus one copy of the maps per device and one for the host |
| InnerPreload.BuildLayout | src/gpujoin.c:6483-6574 | the buffers and maps are placed as the loading loop places them and the required size counts one map copy per device plus the host's |
| InnerPreload.PlaceChunks | src/gpujoin.c:6494-6548 | the loading loop places every depth's buffer after the previous one, from the aligned end of the header, and totals the outer-join maps |
| InnerPreload.PlaceChunk | src/gpujoin.c:6523-6547 | one depth's entry starts at the current usage, is nestloop, right-outer and left-outer as its keys and join type say, and a RIGHT or FULL depth takes the next run of the map, one byte per row rounded to 16 |
| InnerPreload.EmptyShortcut | src/gpujoin.c:6561-6573 | the backwards scan finds an empty depth before any outer join exactly when nothing can be joined |
| InnerPreload.OjmapsDisjoint | src/gpujoin.c:6535-6541 | the outer-join maps of two different RIGHT or FULL depths do not overlap |
| InnerPreload.Preload | src/gpujoin.c:6462-6481 | a plan whose key is registered shares that segment and adds itself to the count; otherwise it loads its own and holds it unless nothing can be joined; every other plan is untouched and each registered key counts exactly its holders |
| InnerPreload.OnDetach | src/gpujoin.c:6425-6433 | the detach callback removes the key, leaves every other registry entry alone, and warns exactly when the key was not registered |
| InnerPreload.UnloadAsWritten | src/gpujoin.c:6752-6819 | as written, a plan with nothing loaded is untouched, and is the only plan left untouched; a plan whose load found nothing to join never unloads cleanly: it fails, or drops a sibling's reference |
| InnerPreload.UnloadAsWrittenFailsUnkeyed | src/gpujoin.c:6567-6571 | as written, a plan without a sharing key whose load found nothing to join fails at unload, because the marker is passed to dsm_detach |
| InnerPreload.UnloadAsWrittenMiscounts | src/gpujoin.c:6785-6795 | as written, a skipped plan whose key a sibling registered meanwhile drops that sibling's reference, and the registry no longer counts the holders |
| InnerPreload.UnloadAsWrittenWarns | src/gpujoin.c:6794-6815 | as written, the last holder of a shared segment removes the key and then the detach callback, not finding it, always warns that the buffer is not tracked |
| InnerPreload.UnloadAsWrittenFailsAfterSkip | src/gpujoin.c:6567-6571 | as written, a plan with a sharing key whose load found nothing to join fails at unload, because its marker is not the null pointer while its key was never registered |
| InnerPreload.Unload | src/gpujoin.c:6752-6819 | corrected, a plan that holds no segment has nothing to unload, a shared segment with other holders stays, the last holder releases it without a warning, and each registered key still counts exactly its holders |
| JoinExec.SetupTask | src/gpujoin.c:4388-4430 | the kern_gpujoin buffer puts header, parameters, one pseudo-stack share per thread group and the suspend contexts one after another without overlap; parameters and pseudo stacks start on 16-byte boundaries; each share holds 2048 rows for every depth 0..nrels |
| JoinExec.PstackInBounds | src/gpujoin.c:5317-5320 | every pseudo-stack word the fallback reads for a suspended row of group g lies inside g's own share, and that share inside the region the task layout reserved |
| JoinExec.PstackSizeExact | src/gpujoin.c:4406-4408 | MAXALIGN adds no padding to a pseudo-stack share: it is exactly its 4-byte words |
| JoinExec.WordInGroup | src/gpujoin.c:5317-5356 | within one group's share the word of (depth, row, column) is below the share's total word count |
| JoinExec.TriMono | src/gpujoin.c:5318-5320 | the triangular depth offset grows with the depth, so a deeper pseudo stack never starts before a shallower one |
| JoinExec.RightOuterDepths | src/gpujoin.c:4566-4583 | lists only depths in range whose inner relation is RIGHT or FULL OUTER, in increasing order |
| JoinExec.NextRightOuter | src/gpujoin.c:4566-4583 | returns, and makes current, the first RIGHT/FULL depth after the current one; returns -1 and leaves the current depth alone exactly when none is left |
| JoinExec.OuterPassesAll | src/gpujoin.c:4566-4583 | calling it repeatedly from the start visits every RIGHT/FULL depth once, in increasing order, and then stops |
| JoinExec.SkipToFirst | src/gpujoin.c:4572-4580 | after the first RIGHT/FULL depth, the remaining ones are exactly those past it |
| JoinExec.MergeOjmaps | src/gpujoin.c:5788-5796 | the merged host copy of the outer-join map carries every bit any device copy set and nothing more than its old bits; the device copies are left unchanged |
| JoinExec.MergeHost | src/gpujoin.c:5789-5796 | each word of the host copy becomes its old value ORed with that word of every device copy |
| JoinExec.DeviceMask | src/gpujoin.c:5792-5794 | the inner loop's mask is the OR of one word over all device copies |
| JoinExec.OrCovers | src/gpujoin.c:5792-5795 | no bit set by any single device is missing from the merged mask |
| JoinExec.OrSamePrefix | src/gpujoin.c:5792-5794 | the mask depends only on the device copies, not on the host copy it is later ORed into |
| JoinExec.DecodeCursor | src/gpujoin.c:5298-5305 | the resume counter splits uniquely into a 10-bit row loop count and a pseudo thread number, which in turn splits into depth at or past the outer depth, thread group and lane below the block size |
| JoinExec.CursorAdvances | src/gpujoin.c:5322-5353 | both ways of leaving a pseudo thread move the cursor strictly forward, and the next-thread move never overshoots the next-group move, so the retry loop terminates; the thread-group branch at line 5345 is dead |
| Fallback.FirstFrom | src/gpujoin.c:5076-5110 | the nest-loop's search stops at the first inner row at or after the cursor whose join quals hold, having skipped only failing rows; it finds nothing exactly when no row from the cursor on passes |
| Fallback.MatchesExact | src/gpujoin.c:5076-5110 | the rows that pass the join quals are listed each once, in increasing order, and no passing row is left out |
| Fallback.FirstMatches | src/gpujoin.c:5095-5108 | resuming the nest-loop one past each hit visits exactly the passing rows, in order |
| Fallback.NestLoopStep | src/gpujoin.c:5067-5137 | one nest-loop step keeps the cursor inside the inner buffer, and every descend moves the depth strictly closer to exhaustion, so a depth is left after finitely many rows |
| Fallback.Mark | src/gpujoin.c:5098-5100 | a descend with inner row i sets entry i of the outer-join map and leaves every other entry; a pop-up or a null-extended descend changes nothing; a depth without a map keeps none |
| Fallback.NestLoopStepMap | src/gpujoin.c:5067-5137 | the nest-loop step with its map: the cursor moves as in the step, and exactly the entry of the row it descends with is set |
| Fallback.NestLoopMapMarks | src/gpujoin.c:5096-5100 | after a nest-loop depth pops up, an entry of the map is set exactly when it was set before or its row was emitted |
| Fallback.NestLoopMapRows | src/gpujoin.c:5096-5100 | so a nest-loop depth marks exactly the inner rows from its cursor on whose join quals hold, besides those marked before |
| Fallback.NestLoopMatchStep | src/gpujoin.c:5095-5108 | a hit is emitted and the depth resumes one past it |
| Fallback.NestLoopRunRows | src/gpujoin.c:5067-5137 | for one outer row a depth emits every inner row passing the join quals, in order, then a null-extended row when the join keeps outer rows and the cursor was not matched (nor marked by a hit) |
| Fallback.NestLoopFinalMatched | src/gpujoin.c:5112-5134 | a depth pops up matched exactly when it was matched, the join keeps outer rows, or a hit marked it |
| Fallback.NextHit | src/gpujoin.c:4992-5008 | the hash-chain walk lands on an entry carrying the outer key's hash whose other quals hold, at or after the cursor |
| Fallback.NextHitRows | src/gpujoin.c:4979-5024 | following the hash chain one hit at a time visits exactly the hits, in chain order |
| Fallback.NoHitBeyond | src/gpujoin.c:5003-5007 | once the chain has no hit left, resuming later finds none either |
| Fallback.HashJoinStep | src/gpujoin.c:4968-5061 | a hash-join step keeps the cursor in the chain and its remembered hash the outer key's, and every descend moves the depth strictly closer to exhaustion |
| Fallback.HashJoinStepMap | src/gpujoin.c:4968-5036 | the hash-join step with its map: the cursor moves as in the step, and exactly the entry of the row id it descends with is set |
| Fallback.HashJoinMapMarks | src/gpujoin.c:5026-5028 | after a hash-join depth pops up, an entry of the map is set exactly when it was set before or its row id was emitted |
| Fallback.HashJoinMapRows | src/gpujoin.c:5026-5028 | so a hash-join depth marks exactly the row ids of the chain entries it hits, besides those marked before |
| Fallback.HashMatchStep | src/gpujoin.c:5009-5036 | a hit emits the entry's row id and resumes one past it under the same hash |
| Fallback.HashMissStep | src/gpujoin.c:5038-5060 | with no hit left only the outer-join null row, if any, is emitted |
| Fallback.HashJoinRunRows | src/gpujoin.c:4968-5061 | for one outer row a hash-join depth emits the row ids of the chain entries with the outer key's hash that pass the other quals, in chain order, then the null-extended row on the same terms as the nest-loop |
| Fallback.HashJoinNullKeys | src/gpujoin.c:4984-4990 | outer join keys that are all null match no inner row; only the outer-join null row can follow |
| Fallback.DriveNestLoopJoins | src/gpujoin.c:5067-5137 | with matches marking the cursor and LoadSource clearing it, every outer row gets its matching inner rows, or a single null-extended row when it has none and the join is LEFT or FULL |
| Fallback.DriveNestLoopStale | src/gpujoin.c:5263 | as written, once the cursor of depth one is matched it stays matched, and no later outer row gets a null-extended row |
| Fallback.DriveNestLoopAsWritten | src/gpujoin.c:5095-5134 | as written, a LEFT or FULL join gives the first outer row its matches plus a null-extended row, and every later outer row only its matches |
| Fallback.LeftJoinCounterexample | src/gpujoin.c:5112-5134 | two outer rows under a LEFT join: as written the matching one also gets a null row and the non-matching one gets none; corrected, each gets exactly one row |
| Fallback.RewoundRunJoins | src/gpujoin.c:5263 | from a cleared cursor the corrected run of one depth is the join of that outer row |
| Fallback.LoadOuter | src/gpujoin.c:5140-5175 | the right-outer pass loads the next inner row at or after the cursor that no outer row joined with, skipping only joined ones, and reports the end when none is left |
| Fallback.OuterScanMatches | src/gpujoin.c:5147-5174 | resuming LoadOuter one past each row visits exactly the rows whose outer-join map flag is clear |
| Fallback.OuterScanUnmatched | src/gpujoin.c:5140-5175 | the right-outer pass visits a row if and only if it is at or past the cursor and unjoined, each once, in increasing order |
| Fallback.BlockLoadAt | src/gpujoin.c:5204-5261 | a BLOCK-format load only ever returns a normal line pointer whose tuple passes the outer quals, inside the buffer; the corrected loop never returns an unloaded all-null row |
| Fallback.BlockLoadVisible | src/gpujoin.c:5186-5261 | the corrected loop yields the first visible tuple at or after the cursor, and reports the end exactly when none is left |
| Fallback.EndOfPageStep | src/gpujoin.c:5220-5224 | past the last line of a page the load continues at line 0 of the next page |
| Fallback.SkipLineStep | src/gpujoin.c:5225-5227 | a line pointer that is not normal, or whose tuple fails the outer quals, is stepped over |
| Fallback.BlockLoadClearFlag | src/gpujoin.c:5183-5227 | when the loop flag happens to start false, the loop as written behaves exactly like the corrected one |
| Fallback.CursorSplit | src/gpujoin.c:5214-5215 | the fallback cursor packs block and line (below 65536) so that both are recovered unchanged |
| Fallback.BlockLoadResumes | src/gpujoin.c:5214-5222 | after a corrected load, the cursor left one past the tuple resumes with exactly the visible tuples not yet loaded, so successive loads enumerate every visible tuple once, in order |
| Fallback.EmptyPageCounterexample | src/gpujoin.c:5183-5227 | starting on an empty page with the uninitialised flag reading true, the loop as written returns an outer row without loading any tuple; corrected, it loads the next page's tuple |
| ArrowStats.Atoi128 | next/arrow_fdw.c:548-573 | the caller's null flag is only ever set, never cleared; a result that leaves it clear comes from an optional '-' followed by digits only; an unsigned numeral leaves the flag as the caller passed it |
| ArrowStats.AtoiDigits | next/arrow_fdw.c:558-567 | a string of digits reads as its decimal value reduced into `int128_t`, flag untouched |
| ArrowStats.AtoiMinusDigits | next/arrow_fdw.c:553-572 | '-' and digits read as the two's-complement negation of the value; the flag is set when that value is zero as an `int128_t` ("-0" is null) |
| ArrowStats.AtoiOfText | next/arrow_fdw.c:548-573 | the decimal text of every `int128_t`, the most negative included, reads back as that value with the flag clear |
| ArrowStats.StatsUnitSz | next/arrow_fdw.c:591-681 | statistics exist exactly for Int of width 8/16/32/64, FloatingPoint, Decimal, Date, Time and Timestamp; the unit is the Arrow value width, 16 bytes for Decimal |
| ArrowStats.PairEntry | next/arrow_fdw.c:697-707 | one loop step: both tokens share one null flag, a non-null entry means both trimmed tokens were numerals, and both images are `unitsz` bytes |
| ArrowStats.ParseLoopExact | next/arrow_fdw.c:691-719 | the `strtok_r` loop succeeds exactly when both streams hold the remaining `nrooms - index` tokens, and then appends entry `i` made from the `i`-th tokens |
| ArrowStats.ParseStatsExact | next/arrow_fdw.c:576-723 | a parse succeeds iff the type has a unit size and both lists hold exactly `nrooms` tokens; entry `i` is then made of the `i`-th tokens of both lists |
| ArrowStats.ParseStatsOfText | next/arrow_fdw.c:576-723 | round trip: statistics printed one decimal per record batch and joined by commas parse back to their little-endian images, no batch null |
| ArrowStats.LastValue | next/arrow_fdw.c:735-743 | no value exactly when no metadata entry carries the key |
| ArrowStats.LastValueIsLast | next/arrow_fdw.c:735-743 | the value found is that of an entry with the key that no later entry with the key follows |
| ArrowStats.FieldArrays | next/arrow_fdw.c:745-769 | a field has arrays only when both keys are present, and then one entry per record batch in each array |
| ArrowStats.BuildField | next/arrow_fdw.c:726-784 | the statistics of a field and its children hold one entry per record batch at every level, the field's arrays are those of its own metadata, and the result is true iff some field of the subtree has statistics |
| ArrowStats.BuildChildren | next/arrow_fdw.c:771-782 | child `j` gets the statistics of field child `j`, and the flag is set iff some child subtree has statistics |
| ArrowStats.BuildStats | next/arrow_fdw.c:787-810 | none exactly when no field at any depth has statistics; otherwise one entry per top-level field |
| ArrowStats.BuildFieldOfText | next/arrow_fdw.c:726-784 | a field whose metadata holds printed statistics gets exactly those statistics and reports having some |
| ArrowStats.Apply | next/arrow_fdw.c:816-863 | the children are applied one by one with the same batch index, and a field without arrays is reported null |
| ArrowStats.ApplyFixedMeaning | next/arrow_fdw.c:816-850 | corrected: a batch's statistics are non-null exactly when the field has arrays and the batch's entry parsed, and are then that entry's min and max |
| ArrowStats.ApplyAgreesOnParsed | next/arrow_fdw.c:822-834 | the correction changes nothing for a batch whose entry parsed |
| ArrowStats.BuildApplyOfText | next/arrow_fdw.c:726-850 | built from printed statistics, each record batch sees its own min and max, non-null |
| ArrowStats.UnparsedBatchCounterexample | next/arrow_fdw.c:822-834 | as written, a batch whose min token does not parse is reported with non-null all-zero statistics; corrected, it is null |
| ArrowBatch.Assign | next/arrow_fdw.c:969-1022 | a successful assignment consumes exactly the column's buffers (validity, values when the unit size is not 0, extra when asked), records an extra buffer exactly when asked, and leaves a column whose own checks hold |
| ArrowBatch.AssignExact | next/arrow_fdw.c:969-1022 | the assignment fails exactly when the batch runs out of buffers or one of them is too short or misaligned, and records the validity buffer when there are nulls, the values buffer when the unit size is not 0 and the extra buffer when asked |
| ArrowBatch.TypeLayout | next/arrow_fdw.c:1117-1333 | the types a column may have: Int of width 8/16/32/64, Decimal128, Interval other than MONTH_DAY_NANO, FixedSizeBinary up to BLCKSZ, and the fixed kinds; the unit size is the Arrow width except for Date MILLISECOND as written; only the variable-width types take an extra buffer; Bool is a bitmap |
| ArrowBatch.BuildField | next/arrow_fdw.c:1099-1391 | an accepted field consumes its own node and its subtree's nodes and buffers in pre-order, takes the item and null counts of its node, leaves every buffer of the subtree checked, and is a list or struct only at the top level |
| ArrowBatch.BuildStruct | next/arrow_fdw.c:1365-1384 | a struct is accepted only at the top level, keeps its node's counts, and its children consume their nodes and buffers in order, every one checked |
| ArrowBatch.BuildScalar | next/arrow_fdw.c:1117-1333 | a column without children consumes the buffers of its type's layout and no further node, every buffer checked |
| ArrowBatch.BuildList | next/arrow_fdw.c:1334-1364 | a list is accepted only at the top level with exactly one child, takes a 4- or 8-byte offsets buffer and then its child's nodes and buffers, every one checked |
| ArrowBatch.BuildChildren | next/arrow_fdw.c:1372-1383 | the children are built left to right, one state each, consuming their nodes and buffers one after another, every one checked |
| ArrowBatch.BuildRecordBatch | next/arrow_fdw.c:1394-1428 | a compressed batch is refused; an accepted batch uses exactly the schema's field nodes and buffers, its body starts after the message metadata, and every top-level column is checked |
| ArrowBatch.BatchCountsMismatch | next/arrow_fdw.c:1423-1426 | a batch whose node or buffer count differs from what the schema takes is refused |
| ArrowBatch.FieldLengthCovers | next/arrow_fdw.c:1786-1797 | the size estimate of a checked column covers the bytes its items need: the null bitmap when there are nulls and the rounded values array, at every level |
| ArrowBatch.FieldLengthAllCovers | next/arrow_fdw.c:1786-1797 | the same for a list of checked columns |
| ArrowBatch.FixedWidthValuesFit | next/arrow_fdw.c:1199-1216 | corrected: an accepted column of a fixed-width type has a values buffer that holds every item at its Arrow width |
| ArrowBatch.DateMilliCounterexample | next/arrow_fdw.c:1205-1208 | as written, a Date MILLISECOND column of two items with an eight-byte values buffer is accepted; the corrected unit size refuses it |
| ArrowSlab.Initial | next/arrow_fdw.c:2189-2228 | shared memory at startup, every block on `free_blocks` and nothing carved, satisfies the allocator's invariant |
| ArrowSlab.Carve | next/arrow_fdw.c:357-369 | taking a free block and pushing each of its units, marked FREE, on the kind's empty free list keeps the invariant, makes the list non-empty and activates nothing |
| ArrowSlab.CarvePreserves | next/arrow_fdw.c:357-369 | the invariant survives carving: the block leaves `free_blocks`, counts no active unit, and its units are exactly the new free list |
| ArrowSlab.Activate | next/arrow_fdw.c:371-378 | popping the head of a non-empty free list, counting it in its block and marking it ACTIVE keeps the invariant and activates exactly one unit that was not active, in a block of the requested kind |
| ArrowSlab.ActivatePreserves | next/arrow_fdw.c:371-378 | the invariant survives activating the head of a free list, and the set of active units gains exactly that unit |
| ArrowSlab.Alloc | next/arrow_fdw.c:341-420 | an allocation keeps the invariant; it fails for lack of space exactly when the kind's free list and `free_blocks` are both empty, and then changes nothing; a unit it hands out is newly active in a block of the kind; as written, the record-batch variant dereferences NULL whenever it does not fail for space |
| ArrowSlab.DeactivatePreserves | next/arrow_fdw.c:225-230 | marking an active unit FREE, pushing it on its free list and uncounting it keeps the invariant and deactivates exactly that unit |
| ArrowSlab.ReturnPreserves | next/arrow_fdw.c:232-249 | taking every unit of a block without active units off the free list and pushing the block on `free_blocks` keeps the invariant and the set of active units |
| ArrowSlab.ReleaseOne | next/arrow_fdw.c:225-250 | releasing one active unit keeps the invariant and deactivates exactly it; its block returns to the tail of `free_blocks` exactly when that was the block's last active unit |
| ArrowSlab.ReleaseField | next/arrow_fdw.c:213-251 | releasing a field cache and its sub-fields keeps the invariant and deactivates exactly the units of the tree |
| ArrowSlab.ReleaseKids | next/arrow_fdw.c:218-224 | popping and releasing the children in turn deactivates exactly the units of all their trees |
| ArrowSlab.ReleaseCache | next/arrow_fdw.c:254-306 | walking the chain of record-batch caches keeps the invariant and deactivates exactly the units of every cache of the chain and of their field caches |
| ArrowSlab.ReleaseEntry | next/arrow_fdw.c:270-303 | one record-batch cache: its field caches, then itself, are deactivated |
| ArrowSlab.AllocCacheCounterexample | next/arrow_fdw.c:414-417 | from a fresh cache with one free block, the record-batch allocation as written dereferences NULL, while the corrected one hands out a unit |

## Left out

- **PostgreSQL and CUDA calls.** Syscache and type-cache lookups, `ExecQual`, `equal()`, `hash_any` and the per-type hash functions (src/codegen.c:337-584) are parameters or opaque functions. The one exception is that a null key contributes nothing to a hash. These calls live in PostgreSQL or the driver.
- **Extension and collation oracles.** The extension-membership and collation checks of the catalog builders (src/codegen.c:53-61, 792) are fields of an oracle record (`SysCache`). They are catalog I/O.
- ArrowBatch.BuildStruct: it does not model the search of pg_type for a composite type whose attributes match the children (next/arrow_fdw.c:1043-1094), nor the error "didn't find out compatible composite type" it raises when none matches; the field's `atttypid` is not modelled.
- ArrowBatch.BuildList: it does not model `get_array_type` on the element type, nor the error "type has no array type" raised when there is none (next/arrow_fdw.c:1358-1362); the field's `atttypid` is not modelled.
- **From the walker's tree to the byte image.** `CodegenExpr.XNode` carries type names and per-opcode info; how each opcode's info becomes payload bytes of a `KernExp.KNode` is not modelled, so the decode round trip (`KernExp.DecodeEncode`) is about `KNode` and is not connected to the walker's output.
- **Device type sizes and alignments.** `type_sizeof` and `type_alignof` of the device type catalog are not modelled; so the second effect of the short alias initialisers (src/codegen.c:45-48), an alignment of 25 for varchar and 869 for cidr, is not either.
- **Other catalog entry points.** `devtype_lookup_by_opcode`, `devfunc_lookup_by_opcode`, `pgstrom_devfunc_lookup` and `devtype_lookup_compare_func` (src/codegen.c:315-335, 799-838, 854-866) are thin wrappers: a table scan, or a lookup with a fixed argument list. Only the group-by key comparison reaches the function catalog through `devtype_lookup_equal_func`, and that path is modelled (`CodegenGroupby.EqualFunc`).
- **Preprocessor behaviour of the catalog header.** The default empty definitions and the `#undef`s of the row-forming macros (next/xpu_opcodes.h:16-18, 47-49, 604-606) are not modelled. The table is a Dafny constant, so it is "included" once, with the row shapes of the `FUNC_OPCODE`, `__FUNC_OPCODE` and `__FUNC_LOCALE_OPCODE` macros.
- **Expression kinds.** Node kinds other than Var, Const, Param, FuncExpr, OpExpr/DistinctExpr, BoolExpr, NullTest and BooleanTest are a single `Unsupported` kind. The walker rejects them all with the same error path.
- **Constant datums.** A Const's datum is an opaque byte string. The source's `datumGetSize`/`memcpy` of the datum into the node is not modelled byte by byte.
- **Sort ties.** `qsort` with `kern_vars_defitem_comp` (src/codegen.c:1360-1370, 1413-1419) is modelled as an insertion sort by column number. C leaves the order of two entries with the same column number unspecified, and the model fixes one order. Such ties cannot arise within one depth, because slots are deduplicated by (depth, column).
- **EXPLAIN.** The cstring renderers (src/codegen.c:2431-2869) are output formatting.
- **`pgstrom_gpu_expression` and `pgstrom_dpu_expression`.** These (src/codegen.c:2400-2430) only fix the device flags of `pgstrom_xpu_expression`, which is modelled (`CodegenGroupby.XpuExpression`).
- **DEBUG2 reports.** `pgstrom_xpu_expression` lowers the walker's `__Elog` refusals to DEBUG2 reports and answers false (src/codegen.c:874-883, 2371). The model answers `Ok(None)` and drops the report, which is logging. The catalog's `elog(ERROR)`s (src/codegen.c:104, 109, 116) and the Const length error are raised whatever the level; the model returns them as `Err`.
- **Tuple extraction.** `gpujoin_fallback_tuple_extract` and `gpujoin_fallback_column_extract` (src/gpujoin.c:4717-4962) fill the fallback slot from a row. The model keeps only which row is loaded, or the null-extended row.
- **Deeper fallback depths.** The driver loop of `gpujoinNextTupleFallback` (src/gpujoin.c:5509-5593) is modelled for one inner depth (`Fallback.DriveNestLoop`). Each depth's step is modelled in full; the proofs of a deeper nest would be the same argument repeated.
- **ROW and COLUMN `gpujoinFallbackLoadSource`.** These formats take the next index, like `Fallback.FirstFrom`. Only the BLOCK format, whose cursor packs block and line, is modelled on its own (`Fallback.BlockLoadAt`).
- **`gpujoinFallbackLoadFromSuspend` row extraction.** Its decode of the thread counter and its pseudo-stack addressing are modelled (`JoinExec.DecodeCursor`, `JoinExec.PstackInBounds`). The loop that extracts the saved rows through tuple extraction is not.
- **Device transfer and synchronisation.** The CUDA copies around the outer-join map merge, the device buffers and kernel launches (src/gpujoin.c:4588-4656, 5803-6190), and the wait loop of parallel workers on a shared inner buffer (src/gpujoin.c:6675-6727) are not modelled. They are driver calls and concurrency.
- **DSM resize loop.** The loop that resizes the dynamic shared memory segment (src/gpujoin.c:6509-6513) is not modelled. Its size is an input of `InnerPreload.PreloadLayout`.
- **Rescan reset.** The reset of the shared state on rescan (src/gpujoin.c:6772-6783) is not modelled. It is a plain reinitialisation.
- **`get_tuple_hashvalue` hash.** The legacy CRC32 of `get_tuple_hashvalue` is an opaque fold (`InnerKds.FoldNonNull`) that starts from `0xFFFFFFFF`. What is proved is how null keys enter it, not its bit pattern.
- **Planner, cost model and CUDA C generation.** src/gpujoin.c:451-2297 and 3256-4382 are not modelled. They are planner data structures, floating-point costs and source-text templating.
- **Arrow file I/O.** The file reads, the `stat`-based LRU reclaim of metadata caches, option parsing and file listing (next/arrow_fdw.c:308-338, 1430-1481, 1687-1780) are not modelled. They need files and the clock.
- **`__trim`.** `__trim`, a string helper defined outside the modelled files, is taken to drop leading and trailing spaces and tabs.
- **Copied metadata fields.** The fields a metadata cache copies from the file (schema, names, custom metadata) are not modelled. The slab bookkeeping is modelled, and those fields do not affect it.
- **The `stat_min`/`stat_max` datum.** The model keeps only the `unitsz`-byte image that apply copies. The remaining bytes of the 16-byte `SQLstat__datum` union are not modelled.
- **Fixed-width C integers.** `int128_t` wrap-around is modelled explicitly (`ArrowStats.Wrap128`). C strings are sequences of characters without the terminating NUL.
- **Closed enumerations.** The enumerations of Arrow types and units are closed datatypes, so the `default:` error arms of the source's switches cannot be reached.
- **Dead code.** Everything inside `#if 0` in next/arrow_fdw.c is dead code.
- DevCatalog.Lookup: the memoised type lookup, and the function memo built on it, are modelled over the corrected domain walk only. With `refuseDomains` set the walker resolves as compiled without a memo (`CodegenExpr.TypeOf`, `CodegenExpr.FuncOf`); a memo of the as-compiled answers is not modelled.
- CodegenProj.ProjectEntry: its contract states that the entry's slot provides the expression's value and that at most one SaveExpr node is emitted. It does not state that the slot is the same number `__try_inject_projection_expression` would answer on its own; `CodegenProj.InjectProjection` states that.
- ArrowSlab.Alloc: it returns NULL when no free unit and no free block exist, without trying `__reclaimMetadataCache`. Reclaim picks victims by their last access time, which needs the clock.
- InnerPreload.Preload: it decides skip, load or share from inputs given as values. The `dsm_create`, `shm_toc` and DSM attach calls are not modelled.

## Findings

| source | as written | input that shows it | evidently intended | confidence | as-written member | corrected member |
|---|---|---|---|---|---|---|
| src/codegen.c:1567-1588 | the reuse loop of `__try_inject_projection_expression` never increments `slot_id`, so a found slot is always reported as 0 | slot 0 a scanned column, slot 1 a synthetic slot whose target entry is the expression: 0 is returned | return the position of the matching slot (1) | high; not executed | CodegenProj.ReuseAsWrittenMisreports | CodegenProj.Reuse |
| src/codegen.c:655-673 | for a variadic `__T__` token only the last '_' is cleared, so "T_" is compared with the type name; after the inner while loop the for loop's `j++` also moves past `func_nargs` | the catalog pattern `__text__` against the argument types (text, text): refused | `__T__` consumes every remaining argument of type T | high; not executed | DevCatalog.VariadicTextPattern | DevCatalog.VariadicTextIntended |
| src/gpujoin.c:5095-5134 | the fallback never sets `fallback_inner_matched` on a match, and LoadSource (line 5263) resets only the index of depth one | LEFT join, outer rows [matches inner 0, matches nothing]: the first gets its match plus a null row, the second nothing | each outer row gets its matches, or one null-extended row when none | high; not executed | Fallback.LeftJoinCounterexample | Fallback.DriveNestLoopJoins |
| next/xpu_opcodes.h:221-245 | `int4up`, `int8up`, `int4um`, `int8um`, `int4abs` and `int8abs` are declared with argument `int2` | resolving `int4abs(int4)`: the row's pattern names int2 and does not match | each row takes the type its name starts with | medium; not executed | XpuOpcodes.UnaryRowsAsWritten | XpuOpcodes.UnaryRowsIntended |
| next/arrow_fdw.c:822-834 | apply ignores the per-batch `isnull` flag the parser set | metadata min_values "x", max_values "7" for one batch: reported non-null with min 0 | a batch whose entry did not parse is reported null | high; not executed | ArrowStats.UnparsedBatchCounterexample | ArrowStats.ApplyFixedMeaning |
| next/arrow_fdw.c:1205-1208 | a Date MILLISECOND column gets unit size 4 (the statistics parser at line 641 uses 8, as does the Arrow format) | two items with an 8-byte values buffer: accepted, though the items need 16 bytes | unit size 8 | high; not executed | ArrowBatch.DateMilliCounterexample | ArrowBatch.FixedWidthValuesFit |
| src/codegen.c:1942-1963 | the group-by reuse loop skips `slot_id++` through `continue` for slots of input relations | slot 0 a scanned grouping key, slot 1 the injected key: 0 is reported | report the position of the matching slot (1) | high; not executed | CodegenGroupby.GroupbyReuseAsWrittenMisreports | CodegenGroupby.GroupbyKey |
| src/gpujoin.c:6794-6815 | the last holder removes the registry entry itself before `dsm_detach`, so the detach callback (lines 6424-6433) no longer finds it and warns | one plan holding a shared segment alone, then unloading: the warning "not tracked" is always raised | leave the entry for the detach callback to remove | medium; not executed | InnerPreload.UnloadAsWrittenWarns | InnerPreload.Unload |
| src/gpujoin.c:6567-6571 | a load that finds nothing to join marks the plan with `~0UL` and registers no key; unload (line 6760) does not treat the marker as "nothing loaded", so a plan with a sharing key looks the key up | a plan with a sharing key whose load found nothing to join, then unloading: an error, "sibling inner buffer is not found" | a plan with no segment has nothing to unload | medium; not executed | InnerPreload.UnloadAsWrittenFailsAfterSkip | InnerPreload.Unload |
| src/gpujoin.c:6760-6815 | the same marker, on a plan without a sharing key: unload frees the zeroed per-device pointers (lines 6803-6813) and passes the marker `~0UL` to `dsm_detach` (line 6815) as if it were a segment | a plan without a sharing key whose load found nothing to join, then unloading: `dsm_detach` of `~0UL` | a plan with no segment has nothing to unload | medium; not executed | InnerPreload.UnloadAsWrittenFailsUnkeyed | InnerPreload.Unload |
| src/gpujoin.c:5204-5261 | in the BLOCK branch of `gpujoinFallbackLoadSource`, `continue` reaches `while (!retval)` before `retval` was ever assigned | cursor on an empty page followed by a page with one visible tuple, with the uninitialised flag reading true: an outer row is returned with no tuple loaded | go on to the next line or page | medium; not executed | Fallback.EmptyPageCounterexample | Fallback.BlockLoadVisible |
| next/arrow_fdw.c:414-418 | `memset(&mcache, ...)` clears the local pointer (and the stack past it) instead of the unit's list fields, then the magic is stored through it | any record-batch cache allocation, e.g. from a fresh cache with one free block: NULL is dereferenced | clear `&mcache->chain` onwards, as the field-cache twin does at lines 375-377 | high; not executed | ArrowSlab.AllocCacheCounterexample | ArrowSlab.Alloc |
| src/codegen.c:45-48 | the two alias rows give seven initialisers for eight fields, so `TEXTOID` and `INETOID` land in `type_alignof` and `type_alias` is zero | a varchar column with a binary cast to text: its device type is named "varchar"; without the cast it is still accepted | varchar and cidr borrow text and inet after the binary-cast check, taking their names | high; not executed | DevCatalog.AliasAsWritten | DevCatalog.AliasIntended |
| src/codegen.c:258-260 | `nextDomain` of a type cache entry links the cache's list of domain entries, not a domain to its base type, so the walk never reaches a base type | a domain over int4: a negative entry, so no expression on it runs on the device | follow the domain to its base type, as the comment says | medium; not executed | DevCatalog.DomainAsWritten | DevCatalog.DomainIntended |
| src/codegen.c:202-205 | an array's element type goes through the same lookup, so the domain walk refuses it too | `_posint`, the array type beside a domain over int4: a negative entry | resolve the element through its base type, giving an array of int4 | medium; not executed | DevCatalog.ArrayOfDomainAsWritten | DevCatalog.ArrayOfDomainIntended |
| src/codegen.c:933-946 | the Const length test sits inside `if (buf)`, and `pgstrom_xpu_expression` walks with `buf` NULL (line 2387), so the check accepts a constant that generation then refuses with `elog(ERROR)` | a non-null `interval` constant (16 bytes, passed by reference) as the only qual: the check answers true at cost 0, and scan-qual generation raises "unsupported type length" | the check answers false wherever generation cannot build the expression | medium; not executed | CodegenGroupby.FixedByRefConstAccepted | CodegenGroupby.XpuExpressionIntendedAgrees |
| src/codegen.c:1022-1024 | the column's type goes through the same lookup, so a column of a domain type is "not device supported" | a scanned column of type `posint`, a domain over int4, as the only qual: the check answers false | the column is checked as its base type, int4, and accepted | medium; not executed | CodegenGroupby.DomainVarRefused | CodegenGroupby.DomainVarAccepted |
| src/codegen.c:766-778 | the argument loop of the negative branch reuses `i`, the slot index, so a negative entry is appended to slot `func_nargs` while lookups search the slot its signature hashes to | a function of one argument with no device implementation whose signature does not hash to slot 1: every call rebuilds the entry and appends another copy | file the negative entry in its own slot, so the next call is a hit | high; not executed | DevCatalog.AsWrittenForgetsNegative | DevCatalog.IntendedKeepsNegative |
