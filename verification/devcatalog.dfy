/**
 * Resolution of PostgreSQL types and functions to device types and device
 * functions (src/codegen.c:14-146, 148-310, 584-796, 2872-2880).
 *
 * The system catalogs the server would consult are a parameter, `SysCache`.
 * Both lookups memoise their answers, negative ones included; the model
 * keeps the memo as two maps and proves that a consistent memo never
 * changes an answer. Three places where the code as compiled does
 * otherwise are modelled beside the intended behaviour: the alias rows of
 * the type catalog, the domain walk, and where a negative function entry
 * is filed.
 */
module DevCatalog {
  import opened Wrappers
  import opened XpuOpcodes
  import StrTok

  type Oid = nat

  const InvalidOid: Oid := 0
  const PG_CATALOG_NAMESPACE: Oid := 11
  const TEXTOID: Oid := 25
  const INETOID: Oid := 869
  /** pg_cast.castmethod of a binary-compatible cast. */
  const COERCION_METHOD_BINARY: char := 'b'

  // ---------------------------------------------------------------------
  // The system catalogs, as far as the resolver reads them
  // ---------------------------------------------------------------------

  datatype TypType = Base | Composite | Domain | Enum | Pseudo | Range | Multirange

  /**
   * A pg_type row with its type-cache extras: the owning extension, the
   * attribute types of a composite, the base of a domain. `level` is the
   * nesting depth of the type (0 for a type built from no other type); the
   * server forbids a type that contains itself, which `Leveled` states.
   */
  datatype PgType = PgType(name: string, namespace: Oid, extension: Option<string>,
                           typtype: TypType, typlen: int, typelem: Oid, typrelid: Oid,
                           fields: seq<Oid>, baseType: Oid, level: nat)

  datatype PgProc = PgProc(name: string, namespace: Oid, extension: Option<string>, rettype: Oid)

  datatype SysCache = SysCache(types: map<Oid, PgType>, casts: map<(Oid, Oid), char>,
                               procs: map<Oid, PgProc>, cCollations: set<Oid>)

  function Rank(sys: SysCache, oid: Oid): nat
  {
    if oid in sys.types then sys.types[oid].level else 0
  }

  /** Every type a type is built from exists and sits at a lower level. */
  predicate Leveled(sys: SysCache)
  {
    forall o | o in sys.types ::
      var t := sys.types[o];
      && (t.typtype == Domain ==> t.baseType in sys.types && sys.types[t.baseType].level < t.level)
      && (t.typelem != InvalidOid ==> t.typelem in sys.types && sys.types[t.typelem].level < t.level)
      && (forall f | f in t.fields :: f in sys.types && sys.types[f].level < t.level)
  }

  // ---------------------------------------------------------------------
  // The device type catalog (src/codegen.c:23-48)
  // ---------------------------------------------------------------------

  /** One devtype_catalog entry; `alias` is the type whose device code an alias borrows. */
  datatype TypeEntry = TypeEntry(extension: Option<string>, name: string, code: string,
                                 flags: set<Flag>, alias: Option<Oid>)

  function EntryOf(row: TypeRow): TypeEntry
  {
    TypeEntry(row.extension, row.name, row.name, AnyKind + row.flags, None)
  }

  function EntriesOf(rows: seq<TypeRow>): (r: seq<TypeEntry>)
    ensures |r| == |rows|
    ensures forall i | 0 <= i < |rows| :: r[i] == EntryOf(rows[i])
  {
    seq(|rows|, i requires 0 <= i < |rows| => EntryOf(rows[i]))
  }

  /**
   * The alias rows as their initialisers mean them: varchar and cidr borrow
   * the device code of text and inet, once a binary cast to those exists.
   */
  const AliasEntries: seq<TypeEntry> :=
    [TypeEntry(None, "varchar", "text", AnyKind, Some(TEXTOID)),
     TypeEntry(None, "cidr", "inet", AnyKind, Some(INETOID))]

  /**
   * The alias rows as their initialisers are written (src/codegen.c:45-48):
   * seven values for eight fields, so TEXTOID and INETOID land in
   * type_alignof and type_alias is left zero, that is InvalidOid.
   */
  const AliasEntriesAsWritten: seq<TypeEntry> :=
    [TypeEntry(None, "varchar", "text", AnyKind, None),
     TypeEntry(None, "cidr", "inet", AnyKind, None)]

  /** Every built-in row, then varchar and cidr as aliases of text and inet. */
  const TypeCatalog: seq<TypeEntry> := EntriesOf(TypeRows) + AliasEntries

  /** The catalog as compiled: the alias rows carry no alias. */
  const TypeCatalogAsWritten: seq<TypeEntry> := EntriesOf(TypeRows) + AliasEntriesAsWritten

  /** A device type: what a devtype_info entry records. */
  datatype DevType = DevType(oid: Oid, code: string, name: string, extension: Option<string>,
                             flags: set<Flag>, nfields: nat)

  predicate EntryMatches(e: TypeEntry, ext: Option<string>, name: string)
  {
    e.extension == ext && e.name == name
  }

  /** Entry `i` matches and no earlier entry does. */
  predicate FirstEntryAt(entries: seq<TypeEntry>, i: nat, ext: Option<string>, name: string)
  {
    i < |entries| && EntryMatches(entries[i], ext, name)
    && forall k | 0 <= k < i :: !EntryMatches(entries[k], ext, name)
  }

  /** The position of the first catalog entry with the given extension and name. */
  function FindTypeEntry(entries: seq<TypeEntry>, ext: Option<string>, name: string): (r: Option<nat>)
    ensures r.None? <==> forall i | 0 <= i < |entries| :: !EntryMatches(entries[i], ext, name)
    ensures r.Some? ==> FirstEntryAt(entries, r.value, ext, name)
  {
    if entries == [] then None
    else if EntryMatches(entries[0], ext, name) then Some(0)
    else
      match FindTypeEntry(entries[1..], ext, name)
      case None => None
      case Some(i) =>
        assert forall k | 0 < k < i + 1 :: entries[k] == entries[1..][k - 1];
        Some(i + 1)
  }

  /** The first matching entry is the one the search finds. */
  lemma FindTypeEntryAt(entries: seq<TypeEntry>, i: nat, ext: Option<string>, name: string)
    requires FirstEntryAt(entries, i, ext, name)
    ensures FindTypeEntry(entries, ext, name) == Some(i)
  {
    assert EntryMatches(entries[i], ext, name);
  }

  /** No built-in row is named varchar. */
  lemma NoVarcharRow()
    ensures forall i | 0 <= i < |TypeRows| :: TypeRows[i].name != "varchar"
  {
    assert forall i | 0 <= i < |TypeRows| :: |TypeRows[i].name| != 7 || TypeRows[i].name[0] != 'v';
  }

  /** So a varchar type finds the first alias row. */
  lemma VarcharEntry(aliases: seq<TypeEntry>)
    requires |aliases| > 0 && EntryMatches(aliases[0], None, "varchar")
    ensures FindTypeEntry(EntriesOf(TypeRows) + aliases, None, "varchar") == Some(|TypeRows|)
  {
    NoVarcharRow();
    AliasAfterRows(TypeRows, aliases, "varchar");
  }

  lemma AliasAfterRows(rows: seq<TypeRow>, aliases: seq<TypeEntry>, name: string)
    requires forall i | 0 <= i < |rows| :: rows[i].name != name
    requires |aliases| > 0 && EntryMatches(aliases[0], None, name)
    ensures FindTypeEntry(EntriesOf(rows) + aliases, None, name) == Some(|rows|)
  {
    var cat := EntriesOf(rows) + aliases;
    assert forall k | 0 <= k < |rows| :: cat[k] == EntryOf(rows[k]);
    FindTypeEntryAt(cat, |rows|, None, name);
  }

  // ---------------------------------------------------------------------
  // Type resolution (src/codegen.c:63-146, 148-230, 232-310)
  // ---------------------------------------------------------------------

  /**
   * The errors type and function resolution raise with elog(ERROR)
   * (src/codegen.c:74, 104, 109, 116, 271, 615): they abort the statement
   * whatever the caller's error level.
   */
  const CatalogErrors: set<string> := {"cache lookup failed for type", "binary type cast is not defined",
    "type cast is not binary compatible", "wrong composite definition", "cache lookup failed on procedure"}

  /** Follows a domain down to its base type: the oid and row the device type is built from. */
  function BaseType(sys: SysCache, oid: Oid): (r: Result<(Oid, PgType)>)
    requires Leveled(sys)
    ensures r.Err? <==> oid !in sys.types
    ensures r.Err? ==> r.msg in CatalogErrors
    ensures r.Ok? ==> (r.value.0 in sys.types && sys.types[r.value.0] == r.value.1
      && r.value.1.typtype != Domain && r.value.1.level <= Rank(sys, oid))
    decreases Rank(sys, oid)
  {
    if oid !in sys.types then Err("cache lookup failed for type")
    else
      var t := sys.types[oid];
      if t.typtype == Domain then BaseType(sys, t.baseType) else Ok((oid, t))
  }

  /**
   * build_basic_devtype_info: a built-in type must live in pg_catalog; the
   * catalog entry must agree on extension and name; an alias entry needs a
   * binary cast to the type it borrows from, whose name it then takes.
   */
  function BuildBasic(cat: seq<TypeEntry>, sys: SysCache, baseOid: Oid, t: PgType, typeOid: Oid, ext: Option<string>)
    : (r: Result<Option<DevType>>)
    ensures r == Ok(None) <==>
      (ext.None? && t.namespace != PG_CATALOG_NAMESPACE) || FindTypeEntry(cat, ext, t.name).None?
    ensures r.Ok? && r.value.Some? ==>
      var d := r.value.value;
      && d.oid == typeOid && d.extension == ext
      && exists i: nat :: FirstEntryAt(cat, i, ext, t.name)
           && d.code == cat[i].code && d.flags == cat[i].flags
           && (cat[i].alias.None? ==> d.name == t.name)
  {
    if ext.None? && t.namespace != PG_CATALOG_NAMESPACE then Ok(None)
    else
      match FindTypeEntry(cat, ext, t.name)
      case None => Ok(None)
      case Some(i) =>
        var e := cat[i];
        match e.alias
        case None => Ok(Some(DevType(typeOid, e.code, t.name, ext, e.flags, 0)))
        case Some(a) =>
          if (baseOid, a) !in sys.casts then Err("binary type cast is not defined")
          else if sys.casts[(baseOid, a)] != COERCION_METHOD_BINARY then Err("type cast is not binary compatible")
          else if a !in sys.types then Err("cache lookup failed for type")
          else Ok(Some(DevType(typeOid, e.code, sys.types[a].name, ext, e.flags, 0)))
  }

  /** The basic builder fails only with the catalog's errors. */
  lemma BuildBasicErrors(cat: seq<TypeEntry>, sys: SysCache, baseOid: Oid, t: PgType, typeOid: Oid, ext: Option<string>)
    ensures var r := BuildBasic(cat, sys, baseOid, t, typeOid, ext);
      r.Err? ==> r.msg in CatalogErrors
  {
  }

  /** As compiled, no catalog entry is an alias. */
  lemma AsWrittenAliasFree()
    ensures forall i | 0 <= i < |TypeCatalogAsWritten| :: TypeCatalogAsWritten[i].alias.None?
  {
    RowsAliasFree(TypeRows, AliasEntriesAsWritten);
  }

  lemma RowsAliasFree(rows: seq<TypeRow>, aliases: seq<TypeEntry>)
    requires forall j | 0 <= j < |aliases| :: aliases[j].alias.None?
    ensures forall i | 0 <= i < |EntriesOf(rows) + aliases| :: (EntriesOf(rows) + aliases)[i].alias.None?
  {
    var cat := EntriesOf(rows) + aliases;
    assert forall i | |rows| <= i < |cat| :: cat[i] == aliases[i - |rows|];
  }

  /** So building a base type against it never checks a cast and never fails. */
  lemma AsWrittenNeverCasts(sys: SysCache, baseOid: Oid, t: PgType, typeOid: Oid, ext: Option<string>)
    ensures BuildBasic(TypeCatalogAsWritten, sys, baseOid, t, typeOid, ext).Ok?
  {
    AsWrittenAliasFree();
    NoAliasBuilds(TypeCatalogAsWritten, sys, baseOid, t, typeOid, ext);
  }

  lemma NoAliasBuilds(cat: seq<TypeEntry>, sys: SysCache, baseOid: Oid, t: PgType, typeOid: Oid, ext: Option<string>)
    requires forall i | 0 <= i < |cat| :: cat[i].alias.None?
    ensures BuildBasic(cat, sys, baseOid, t, typeOid, ext).Ok?
  {
  }

  const VARCHAROID: Oid := 1043

  /** The pg_type row of varchar, and the catalogs with or without its binary cast to text. */
  const VarcharType := PgType("varchar", PG_CATALOG_NAMESPACE, None, Base, -1, InvalidOid, InvalidOid, [], InvalidOid, 0)
  const TextType := PgType("text", PG_CATALOG_NAMESPACE, None, Base, -1, InvalidOid, InvalidOid, [], InvalidOid, 0)

  function VarcharSys(withCast: bool): SysCache
  {
    SysCache(map[VARCHAROID := VarcharType, TEXTOID := TextType],
             if withCast then map[(VARCHAROID, TEXTOID) := COERCION_METHOD_BINARY] else map[],
             map[], {})
  }

  /**
   * varchar as compiled: it keeps its own name, and is accepted even where
   * no binary cast to text exists.
   */
  lemma AliasAsWritten()
    ensures BuildBasic(TypeCatalogAsWritten, VarcharSys(true), VARCHAROID, VarcharType, VARCHAROID, None)
      == Ok(Some(DevType(VARCHAROID, "text", "varchar", None, AnyKind, 0)))
    ensures BuildBasic(TypeCatalogAsWritten, VarcharSys(false), VARCHAROID, VarcharType, VARCHAROID, None).Ok?
  {
    VarcharEntry(AliasEntriesAsWritten);
    AliasAt(TypeRows, AliasEntriesAsWritten);
    VarcharBuild(TypeCatalogAsWritten, |TypeRows|, true);
    VarcharBuild(TypeCatalogAsWritten, |TypeRows|, false);
  }

  /**
   * varchar with the alias in place: it takes the name of text through the
   * binary cast, and without the cast it is an error.
   */
  lemma AliasIntended()
    ensures BuildBasic(TypeCatalog, VarcharSys(true), VARCHAROID, VarcharType, VARCHAROID, None)
      == Ok(Some(DevType(VARCHAROID, "text", "text", None, AnyKind, 0)))
    ensures BuildBasic(TypeCatalog, VarcharSys(false), VARCHAROID, VarcharType, VARCHAROID, None)
      == Err("binary type cast is not defined")
  {
    VarcharEntry(AliasEntries);
    AliasAt(TypeRows, AliasEntries);
    VarcharBuild(TypeCatalog, |TypeRows|, true);
    VarcharBuild(TypeCatalog, |TypeRows|, false);
  }

  lemma AliasAt(rows: seq<TypeRow>, aliases: seq<TypeEntry>)
    requires |aliases| > 0
    ensures (EntriesOf(rows) + aliases)[|rows|] == aliases[0]
  {
  }

  /** The varchar row found at `k` decides how varchar is built. */
  lemma VarcharBuild(cat: seq<TypeEntry>, k: nat, withCast: bool)
    requires FindTypeEntry(cat, None, "varchar") == Some(k)
    requires k < |cat| && cat[k].code == "text" && cat[k].flags == AnyKind && cat[k].alias in {None, Some(TEXTOID)}
    ensures cat[k].alias.None? ==>
      BuildBasic(cat, VarcharSys(withCast), VARCHAROID, VarcharType, VARCHAROID, None)
      == Ok(Some(DevType(VARCHAROID, "text", "varchar", None, AnyKind, 0)))
    ensures cat[k].alias.Some? ==>
      BuildBasic(cat, VarcharSys(withCast), VARCHAROID, VarcharType, VARCHAROID, None)
      == if withCast then Ok(Some(DevType(VARCHAROID, "text", "text", None, AnyKind, 0)))
         else Err("binary type cast is not defined")
  {
    var sys := VarcharSys(withCast);
    if cat[k].alias.Some? {
      if withCast {
        assert sys.casts[(VARCHAROID, TEXTOID)] == COERCION_METHOD_BINARY && sys.types[TEXTOID] == TextType;
      } else {
        assert (VARCHAROID, TEXTOID) !in sys.casts;
      }
    }
  }

  /** The flags a composite keeps: those every field type has, within DEVKIND__ANY. */
  function CommonFlags(subs: seq<DevType>): (r: set<Flag>)
    ensures forall f :: f in r <==> f in AnyKind && forall i | 0 <= i < |subs| :: f in subs[i].flags
  {
    if subs == [] then AnyKind
    else
      var rest := CommonFlags(subs[1..]);
      assert forall i | 1 <= i < |subs| :: subs[i] == subs[1..][i - 1];
      subs[0].flags * rest
  }

  /** An array is device-executable when its element is; it adds the slot-buffer flag. */
  function ArrayOf(oid: Oid, ext: Option<string>, elem: Option<DevType>): Option<DevType>
  {
    if elem.None? then None
    else Some(DevType(oid, "array", "array", ext, elem.value.flags + {KvarsSlotbuf}, 0))
  }

  /** A composite is device-executable when every field is. */
  function CompositeOf(oid: Oid, ext: Option<string>, subs: Option<seq<DevType>>): Option<DevType>
  {
    if subs.None? then None
    else Some(DevType(oid, "composite", "composite", ext, CommonFlags(subs.value) + {KvarsSlotbuf}, |subs.value|))
  }

  predicate IsArray(t: PgType)
  {
    t.typelem != InvalidOid && t.typlen == -1
  }

  /** The shape of a type row (after domains are followed) that the resolver looks at. */
  predicate Buildable(sys: SysCache, oid: Oid, t: PgType)
  {
    && t.typtype != Domain && t.level <= Rank(sys, oid)
    && (t.typelem != InvalidOid ==> t.typelem in sys.types && sys.types[t.typelem].level < t.level)
    && (forall f | f in t.fields :: f in sys.types && sys.types[f].level < t.level)
  }

  lemma BaseBuildable(sys: SysCache, oid: Oid)
    requires Leveled(sys) && BaseType(sys, oid).Ok?
    ensures Buildable(sys, oid, BaseType(sys, oid).value.1)
  {
  }

  /**
   * The device type of `oid` computed afresh: Err where the server raises
   * an error, None where the type is not device-executable.
   */
  function Resolve(cat: seq<TypeEntry>, sys: SysCache, oid: Oid): (r: Result<Option<DevType>>)
    requires Leveled(sys)
    ensures r.Err? ==> r.msg in CatalogErrors
    decreases Rank(sys, oid), 2
  {
    var bt :- BaseType(sys, oid);
    BaseBuildable(sys, oid);
    ResolveBuild(cat, sys, oid, bt.0, bt.1, sys.types[oid].extension)
  }

  /** Arrays, composites, then base and range types; anything else is not device-executable. */
  function ResolveBuild(cat: seq<TypeEntry>, sys: SysCache, oid: Oid, baseOid: Oid, t: PgType, ext: Option<string>)
    : (r: Result<Option<DevType>>)
    requires Leveled(sys) && Buildable(sys, oid, t)
    ensures r.Err? ==> r.msg in CatalogErrors
    decreases Rank(sys, oid), 1
  {
    if IsArray(t) then
      var elem :- Resolve(cat, sys, t.typelem);
      Ok(ArrayOf(oid, ext, elem))
    else if t.typtype == Composite then
      if t.typrelid == InvalidOid then Err("wrong composite definition")
      else
        var subs :- ResolveFields(cat, sys, t.fields, Rank(sys, oid));
        Ok(CompositeOf(oid, ext, subs))
    else if t.typtype == Base || t.typtype == Range then
      BuildBasicErrors(cat, sys, baseOid, t, oid, ext);
      BuildBasic(cat, sys, baseOid, t, oid, ext)
    else Ok(None)
  }

  /** The field types of a composite, in order, stopping at the first one that is not device-executable. */
  function ResolveFields(cat: seq<TypeEntry>, sys: SysCache, fields: seq<Oid>, bound: nat): (r: Result<Option<seq<DevType>>>)
    requires Leveled(sys)
    requires forall f | f in fields :: Rank(sys, f) < bound
    ensures r.Ok? && r.value.Some? ==> |r.value.value| == |fields|
    ensures r.Err? ==> r.msg in CatalogErrors
    decreases bound, 0, |fields|
  {
    if fields == [] then Ok(Some([]))
    else
      var d :- Resolve(cat, sys, fields[0]);
      if d.None? then Ok(None)
      else
        var rest :- ResolveFields(cat, sys, fields[1..], bound);
        Ok(if rest.None? then None else Some([d.value] + rest.value))
  }

  /** No type of the catalogs is a domain. */
  predicate NoDomains(sys: SysCache)
  {
    forall o | o in sys.types :: sys.types[o].typtype != Domain
  }

  /**
   * The resolution as written (src/codegen.c:258-260): a type cache
   * entry's nextDomain links the cache's list of domain entries, not a
   * domain to its base. A non-domain entry is not on that list, so the walk
   * stops at once; from a domain it stops at another domain entry, which
   * pg_type gives no element type, so none of the branches that follow
   * accepts it and the type gets a negative entry. Element and field types
   * go through the same lookup (src/codegen.c:161, 204), so a domain is
   * refused at any depth, and so is an array or composite built on one.
   *
   * The answer is the corrected one, except that it may be "not
   * device-executable" where the corrected resolution answers otherwise.
   */
  function ResolveAsWritten(cat: seq<TypeEntry>, sys: SysCache, oid: Oid): (r: Result<Option<DevType>>)
    requires Leveled(sys)
    ensures r != Ok(None) ==> r == Resolve(cat, sys, oid)
    ensures Resolve(cat, sys, oid) == Ok(None) ==> r == Ok(None)
    ensures NoDomains(sys) ==> r == Resolve(cat, sys, oid)
    ensures oid in sys.types && sys.types[oid].typtype == Domain ==> r == Ok(None)
    decreases Rank(sys, oid), 2
  {
    if oid !in sys.types then Err("cache lookup failed for type")
    else
      var t := sys.types[oid];
      if t.typtype == Domain then Ok(None)
      else
        assert BaseType(sys, oid) == Ok((oid, t));
        ResolveBuildAsWritten(cat, sys, oid, t)
  }

  function ResolveBuildAsWritten(cat: seq<TypeEntry>, sys: SysCache, oid: Oid, t: PgType): (r: Result<Option<DevType>>)
    requires Leveled(sys) && Buildable(sys, oid, t)
    ensures var c := ResolveBuild(cat, sys, oid, oid, t, t.extension);
      && (r != Ok(None) ==> r == c)
      && (c == Ok(None) ==> r == Ok(None))
      && (NoDomains(sys) ==> r == c)
    decreases Rank(sys, oid), 1
  {
    if IsArray(t) then
      var elem :- ResolveAsWritten(cat, sys, t.typelem);
      Ok(ArrayOf(oid, t.extension, elem))
    else if t.typtype == Composite then
      if t.typrelid == InvalidOid then Err("wrong composite definition")
      else
        var subs :- ResolveFieldsAsWritten(cat, sys, t.fields, Rank(sys, oid));
        Ok(CompositeOf(oid, t.extension, subs))
    else if t.typtype == Base || t.typtype == Range then BuildBasic(cat, sys, oid, t, oid, t.extension)
    else Ok(None)
  }

  function ResolveFieldsAsWritten(cat: seq<TypeEntry>, sys: SysCache, fields: seq<Oid>, bound: nat)
    : (r: Result<Option<seq<DevType>>>)
    requires Leveled(sys)
    requires forall f | f in fields :: Rank(sys, f) < bound
    ensures var c := ResolveFields(cat, sys, fields, bound);
      && (r != Ok(None) ==> r == c)
      && (c == Ok(None) ==> r == Ok(None))
      && (NoDomains(sys) ==> r == c)
    decreases bound, 0, |fields|
  {
    if fields == [] then Ok(Some([]))
    else
      var d :- ResolveAsWritten(cat, sys, fields[0]);
      if d.None? then Ok(None)
      else
        var rest :- ResolveFieldsAsWritten(cat, sys, fields[1..], bound);
        Ok(if rest.None? then None else Some([d.value] + rest.value))
  }

  const INT4OID: Oid := 23
  const DomainOid: Oid := 16385

  /** int4 and a domain over it, as CREATE DOMAIN leaves them. */
  const Int4Type := PgType("int4", PG_CATALOG_NAMESPACE, None, Base, 4, InvalidOid, InvalidOid, [], InvalidOid, 0)
  const DomainSys := SysCache(
    map[INT4OID := Int4Type,
        DomainOid := PgType("posint", PG_CATALOG_NAMESPACE, None, Domain, 4, InvalidOid, InvalidOid, [], INT4OID, 1)],
    map[], map[], {})

  lemma DomainSysLeveled()
    ensures Leveled(DomainSys)
  {
  }

  /** A domain over int4: as written not device-executable. */
  lemma DomainAsWritten()
    ensures Leveled(DomainSys)
    ensures ResolveAsWritten(TypeCatalog, DomainSys, DomainOid) == Ok(None)
  {
    DomainSysLeveled();
  }

  /** Following the domain to its base, it is an int4 device type under the domain's oid. */
  lemma DomainIntended()
    ensures Leveled(DomainSys)
    ensures Resolve(TypeCatalog, DomainSys, DomainOid) == Ok(Some(DevType(DomainOid, "int4", "int4", None, AnyKind, 0)))
  {
    Int4Found();
    Int4Catalogued(TypeCatalog);
    DomainBase();
    BasicVia(TypeCatalog, DomainSys, DomainOid, INT4OID, Int4Type, 3);
  }

  /** An array whose element type is a domain is refused as written, whatever the domain is over. */
  lemma ArrayOfDomainRefused(cat: seq<TypeEntry>, sys: SysCache, oid: Oid)
    requires Leveled(sys) && oid in sys.types && sys.types[oid].typtype != Domain && IsArray(sys.types[oid])
    requires sys.types[sys.types[oid].typelem].typtype == Domain
    ensures ResolveAsWritten(cat, sys, oid) == Ok(None)
  {
  }

  /** The array type that CREATE DOMAIN makes beside the domain over int4. */
  const ArrayOid: Oid := 16384
  const ArraySys := SysCache(
    DomainSys.types[ArrayOid := PgType("_posint", PG_CATALOG_NAMESPACE, None, Base, -1, DomainOid, InvalidOid, [], InvalidOid, 2)],
    map[], map[], {})

  lemma ArraySysFacts()
    ensures Leveled(ArraySys)
    ensures BaseType(ArraySys, DomainOid) == Ok((INT4OID, Int4Type)) && ArraySys.types[DomainOid].extension.None?
    ensures ArrayOid in ArraySys.types && ArraySys.types[ArrayOid].typtype == Base
    ensures IsArray(ArraySys.types[ArrayOid]) && ArraySys.types[ArrayOid].typelem == DomainOid
    ensures ArraySys.types[ArrayOid].extension.None?
  {
    assert BaseType(ArraySys, INT4OID) == Ok((INT4OID, Int4Type));
  }

  /** As written, an array over the domain is not device-executable. */
  lemma ArrayOfDomainAsWritten()
    ensures Leveled(ArraySys)
    ensures ResolveAsWritten(TypeCatalog, ArraySys, ArrayOid) == Ok(None)
  {
    ArraySysFacts();
    ArrayOfDomainRefused(TypeCatalog, ArraySys, ArrayOid);
  }

  /** Corrected, it is an array of the int4 device type, with the slot-buffer flag. */
  lemma ArrayOfDomainIntended()
    ensures Leveled(ArraySys)
    ensures Resolve(TypeCatalog, ArraySys, ArrayOid)
      == Ok(Some(DevType(ArrayOid, "array", "array", None, AnyKind + {KvarsSlotbuf}, 0)))
  {
    Int4Found();
    Int4Catalogued(TypeCatalog);
    ArraySysFacts();
    BasicVia(TypeCatalog, ArraySys, DomainOid, INT4OID, Int4Type, 3);
    ArrayVia(TypeCatalog, ArraySys, ArrayOid);
  }

  /** A type that is an array resolves to the array of its element's device type. */
  lemma ArrayVia(cat: seq<TypeEntry>, sys: SysCache, oid: Oid)
    requires Leveled(sys) && oid in sys.types && sys.types[oid].typtype != Domain && IsArray(sys.types[oid])
    requires Resolve(cat, sys, sys.types[oid].typelem).Ok?
    ensures Resolve(cat, sys, oid)
      == Ok(ArrayOf(oid, sys.types[oid].extension, Resolve(cat, sys, sys.types[oid].typelem).value))
  {
    assert BaseType(sys, oid) == Ok((oid, sys.types[oid]));
  }

  lemma Int4Found()
    ensures FindTypeEntry(TypeCatalog, None, "int4") == Some(3)
  {
    Int4Entry(TypeRows, AliasEntries);
  }

  lemma Int4Catalogued(cat: seq<TypeEntry>)
    requires cat == TypeCatalog
    ensures |cat| > 3 && cat[3] == TypeEntry(None, "int4", "int4", AnyKind, None)
  {
    EntryAt(TypeRows, AliasEntries, 3);
    Int4Row();
  }

  lemma Int4Row()
    ensures EntryOf(TypeRows[3]) == TypeEntry(None, "int4", "int4", AnyKind, None)
  {
  }

  lemma EntryAt(rows: seq<TypeRow>, aliases: seq<TypeEntry>, i: nat)
    requires i < |rows|
    ensures (EntriesOf(rows) + aliases)[i] == EntryOf(rows[i])
  {
  }

  lemma DomainBase()
    ensures Leveled(DomainSys) && BaseType(DomainSys, DomainOid) == Ok((INT4OID, Int4Type))
    ensures DomainSys.types[DomainOid].extension.None?
  {
    DomainSysLeveled();
    assert BaseType(DomainSys, INT4OID) == Ok((INT4OID, Int4Type));
  }

  /** A base type found at row `i`, with no alias, resolves to that row's device type under its own oid. */
  lemma BasicVia(cat: seq<TypeEntry>, sys: SysCache, oid: Oid, b: Oid, t: PgType, i: nat)
    requires Leveled(sys) && BaseType(sys, oid) == Ok((b, t)) && !IsArray(t) && t.typtype == Base
    requires t.namespace == PG_CATALOG_NAMESPACE && sys.types[oid].extension.None?
    requires FindTypeEntry(cat, None, t.name) == Some(i) && i < |cat| && cat[i].alias.None?
    ensures Resolve(cat, sys, oid) == Ok(Some(DevType(oid, cat[i].code, t.name, None, cat[i].flags, 0)))
  {
    ResolveBasic(cat, sys, oid, b, t);
  }

  /** A type whose base is a scalar base type resolves through the basic builder. */
  lemma ResolveBasic(cat: seq<TypeEntry>, sys: SysCache, oid: Oid, b: Oid, t: PgType)
    requires Leveled(sys) && BaseType(sys, oid) == Ok((b, t)) && !IsArray(t) && t.typtype == Base
    ensures Resolve(cat, sys, oid) == BuildBasic(cat, sys, b, t, oid, sys.types[oid].extension)
  {
  }

  lemma Int4Entry(rows: seq<TypeRow>, aliases: seq<TypeEntry>)
    requires |rows| > 3 && rows[3] == TypeOpcode("int4", None, {})
    requires forall i | 0 <= i < 3 :: rows[i].name != "int4"
    ensures FindTypeEntry(EntriesOf(rows) + aliases, None, "int4") == Some(3)
  {
    var cat := EntriesOf(rows) + aliases;
    assert forall k | 0 <= k <= 3 :: cat[k] == EntryOf(rows[k]);
    FindTypeEntryAt(cat, 3, None, "int4");
  }

  /** The memo of pgstrom_devtype_lookup: positive and negative entries by oid. */
  type TypeMemo = map<Oid, Option<DevType>>

  /** pgstrom_devtype_lookup: answer from the memo, or build and remember the answer. */
  function Lookup(cat: seq<TypeEntry>, c: TypeMemo, sys: SysCache, oid: Oid): (r: Result<(TypeMemo, Option<DevType>)>)
    requires Leveled(sys)
    decreases Rank(sys, oid), 2
  {
    if oid in c then Ok((c, c[oid]))
    else
      var bt :- BaseType(sys, oid);
      BaseBuildable(sys, oid);
      var built :- LookupBuild(cat, c, sys, oid, bt.0, bt.1, sys.types[oid].extension);
      var memo: TypeMemo := built.0[oid := built.1];
      Ok((memo, built.1))
  }

  function LookupBuild(cat: seq<TypeEntry>, c: TypeMemo, sys: SysCache, oid: Oid, baseOid: Oid, t: PgType,
                       ext: Option<string>): (r: Result<(TypeMemo, Option<DevType>)>)
    requires Leveled(sys) && Buildable(sys, oid, t)
    decreases Rank(sys, oid), 1
  {
    if IsArray(t) then
      var er :- Lookup(cat, c, sys, t.typelem);
      Ok((er.0, ArrayOf(oid, ext, er.1)))
    else if t.typtype == Composite then
      if t.typrelid == InvalidOid then Err("wrong composite definition")
      else
        var fr :- LookupFields(cat, c, sys, t.fields, Rank(sys, oid));
        Ok((fr.0, CompositeOf(oid, ext, fr.1)))
    else if t.typtype == Base || t.typtype == Range then
      var d :- BuildBasic(cat, sys, baseOid, t, oid, ext);
      Ok((c, d))
    else Ok((c, None))
  }

  function LookupFields(cat: seq<TypeEntry>, c: TypeMemo, sys: SysCache, fields: seq<Oid>, bound: nat)
    : (r: Result<(TypeMemo, Option<seq<DevType>>)>)
    requires Leveled(sys)
    requires forall f | f in fields :: Rank(sys, f) < bound
    decreases bound, 0, |fields|
  {
    if fields == [] then Ok((c, Some([])))
    else
      var dr :- Lookup(cat, c, sys, fields[0]);
      if dr.1.None? then Ok((dr.0, None))
      else
        var rr :- LookupFields(cat, dr.0, sys, fields[1..], bound);
        Ok((rr.0, if rr.1.None? then None else Some([dr.1.value] + rr.1.value)))
  }

  /** Every remembered answer is the answer a fresh resolution gives. */
  predicate Consistent(cat: seq<TypeEntry>, c: TypeMemo, sys: SysCache)
    requires Leveled(sys)
  {
    forall o | o in c :: Resolve(cat, sys, o) == Ok(c[o])
  }

  predicate Extends<K, V(==)>(c: map<K, V>, c2: map<K, V>)
  {
    forall k | k in c :: k in c2 && c2[k] == c[k]
  }

  /** What a memoised call answers, with the memo it leaves behind dropped. */
  function Answer<X>(r: Result<(TypeMemo, X)>): Result<X>
  {
    if r.Err? then Err(r.msg) else Ok(r.value.1)
  }

  /** A memo a call leaves behind: consistent, and keeping every entry of the memo it started from. */
  predicate Grows(cat: seq<TypeEntry>, c: TypeMemo, r: Result<(TypeMemo, Option<DevType>)>, sys: SysCache)
    requires Leveled(sys)
  {
    r.Ok? ==> Consistent(cat, r.value.0, sys) && Extends(c, r.value.0)
  }

  /**
   * The memo is transparent: from a consistent memo, a lookup answers
   * exactly what a fresh resolution answers (the same error or the same
   * device type), and leaves a consistent memo that keeps every old entry
   * and now holds the oid.
   */
  lemma {:induction false} LookupAgrees(cat: seq<TypeEntry>, c: TypeMemo, sys: SysCache, oid: Oid)
    requires Leveled(sys) && Consistent(cat, c, sys)
    ensures Answer(Lookup(cat, c, sys, oid)) == Resolve(cat, sys, oid)
    ensures Grows(cat, c, Lookup(cat, c, sys, oid), sys)
    ensures Lookup(cat, c, sys, oid).Ok? ==> oid in Lookup(cat, c, sys, oid).value.0
    decreases Rank(sys, oid), 2
  {
    if oid !in c {
      var bt := BaseType(sys, oid);
      if bt.Ok? {
        BaseBuildable(sys, oid);
        var ext := sys.types[oid].extension;
        BuildAgrees(cat, c, sys, oid, bt.value.0, bt.value.1, ext);
        var built := LookupBuild(cat, c, sys, oid, bt.value.0, bt.value.1, ext);
        if built.Ok? {
          RememberAnswer(cat, built.value.0, sys, oid, built.value.1);
          ExtendsInsert(c, built.value.0, oid, built.value.1);
        }
      }
    }
  }

  lemma RememberAnswer(cat: seq<TypeEntry>, c: TypeMemo, sys: SysCache, oid: Oid, d: Option<DevType>)
    requires Leveled(sys) && Consistent(cat, c, sys) && Resolve(cat, sys, oid) == Ok(d)
    ensures Consistent(cat, c[oid := d], sys)
  {
  }

  lemma ExtendsInsert<K, V>(a: map<K, V>, b: map<K, V>, k: K, v: V)
    requires Extends(a, b) && k !in a
    ensures Extends(a, b[k := v])
  {
  }

  lemma {:induction false} BuildAgrees(cat: seq<TypeEntry>, c: TypeMemo, sys: SysCache, oid: Oid, baseOid: Oid,
                                       t: PgType, ext: Option<string>)
    requires Leveled(sys) && Buildable(sys, oid, t) && Consistent(cat, c, sys)
    ensures Answer(LookupBuild(cat, c, sys, oid, baseOid, t, ext)) == ResolveBuild(cat, sys, oid, baseOid, t, ext)
    ensures Grows(cat, c, LookupBuild(cat, c, sys, oid, baseOid, t, ext), sys)
    decreases Rank(sys, oid), 1
  {
    if IsArray(t) {
      LookupAgrees(cat, c, sys, t.typelem);
      BuildArrayAgrees(cat, c, sys, oid, baseOid, t, ext);
    } else if t.typtype == Composite && t.typrelid != InvalidOid {
      LookupFieldsAgree(cat, c, sys, t.fields, Rank(sys, oid));
      BuildCompositeAgrees(cat, c, sys, oid, baseOid, t, ext);
    } else {
      BuildOtherAgrees(cat, c, sys, oid, baseOid, t, ext);
    }
  }

  lemma BuildArrayAgrees(cat: seq<TypeEntry>, c: TypeMemo, sys: SysCache, oid: Oid, baseOid: Oid,
                         t: PgType, ext: Option<string>)
    requires Leveled(sys) && Buildable(sys, oid, t) && Consistent(cat, c, sys) && IsArray(t)
    requires Answer(Lookup(cat, c, sys, t.typelem)) == Resolve(cat, sys, t.typelem)
    requires Grows(cat, c, Lookup(cat, c, sys, t.typelem), sys)
    ensures Answer(LookupBuild(cat, c, sys, oid, baseOid, t, ext)) == ResolveBuild(cat, sys, oid, baseOid, t, ext)
    ensures Grows(cat, c, LookupBuild(cat, c, sys, oid, baseOid, t, ext), sys)
  {
  }

  lemma BuildCompositeAgrees(cat: seq<TypeEntry>, c: TypeMemo, sys: SysCache, oid: Oid, baseOid: Oid,
                             t: PgType, ext: Option<string>)
    requires Leveled(sys) && Buildable(sys, oid, t) && Consistent(cat, c, sys)
    requires !IsArray(t) && t.typtype == Composite && t.typrelid != InvalidOid
    requires forall f | f in t.fields :: Rank(sys, f) < Rank(sys, oid)
    requires Answer(LookupFields(cat, c, sys, t.fields, Rank(sys, oid))) == ResolveFields(cat, sys, t.fields, Rank(sys, oid))
    requires LookupFields(cat, c, sys, t.fields, Rank(sys, oid)).Ok? ==>
      Consistent(cat, LookupFields(cat, c, sys, t.fields, Rank(sys, oid)).value.0, sys)
      && Extends(c, LookupFields(cat, c, sys, t.fields, Rank(sys, oid)).value.0)
    ensures Answer(LookupBuild(cat, c, sys, oid, baseOid, t, ext)) == ResolveBuild(cat, sys, oid, baseOid, t, ext)
    ensures Grows(cat, c, LookupBuild(cat, c, sys, oid, baseOid, t, ext), sys)
  {
  }

  lemma BuildOtherAgrees(cat: seq<TypeEntry>, c: TypeMemo, sys: SysCache, oid: Oid, baseOid: Oid,
                         t: PgType, ext: Option<string>)
    requires Leveled(sys) && Buildable(sys, oid, t) && Consistent(cat, c, sys)
    requires !IsArray(t) && !(t.typtype == Composite && t.typrelid != InvalidOid)
    ensures Answer(LookupBuild(cat, c, sys, oid, baseOid, t, ext)) == ResolveBuild(cat, sys, oid, baseOid, t, ext)
    ensures Grows(cat, c, LookupBuild(cat, c, sys, oid, baseOid, t, ext), sys)
  {
  }

  lemma ExtendsTrans<K, V>(a: map<K, V>, b: map<K, V>, c: map<K, V>)
    requires Extends(a, b) && Extends(b, c)
    ensures Extends(a, c)
  {
  }

  lemma {:induction false} LookupFieldsAgree(cat: seq<TypeEntry>, c: TypeMemo, sys: SysCache, fields: seq<Oid>, bound: nat)
    requires Leveled(sys) && Consistent(cat, c, sys)
    requires forall f | f in fields :: Rank(sys, f) < bound
    ensures Answer(LookupFields(cat, c, sys, fields, bound)) == ResolveFields(cat, sys, fields, bound)
    ensures LookupFields(cat, c, sys, fields, bound).Ok? ==>
      Consistent(cat, LookupFields(cat, c, sys, fields, bound).value.0, sys)
      && Extends(c, LookupFields(cat, c, sys, fields, bound).value.0)
    decreases bound, 0, |fields|
  {
    if fields != [] {
      LookupAgrees(cat, c, sys, fields[0]);
      var dr := Lookup(cat, c, sys, fields[0]);
      if dr.Ok? && dr.value.1.Some? {
        LookupFieldsAgree(cat, dr.value.0, sys, fields[1..], bound);
      }
      FieldsConsAgree(cat, c, sys, fields, bound);
    }
  }

  /** The step of LookupFieldsAgree for a non-empty field list, given the facts for its head and tail. */
  lemma FieldsConsAgree(cat: seq<TypeEntry>, c: TypeMemo, sys: SysCache, fields: seq<Oid>, bound: nat)
    requires Leveled(sys) && Consistent(cat, c, sys) && fields != []
    requires forall f | f in fields :: Rank(sys, f) < bound
    requires Answer(Lookup(cat, c, sys, fields[0])) == Resolve(cat, sys, fields[0])
    requires Grows(cat, c, Lookup(cat, c, sys, fields[0]), sys)
    requires var dr := Lookup(cat, c, sys, fields[0]);
      dr.Ok? && dr.value.1.Some? ==>
        var rr := LookupFields(cat, dr.value.0, sys, fields[1..], bound);
        && Answer(rr) == ResolveFields(cat, sys, fields[1..], bound)
        && (rr.Ok? ==> Consistent(cat, rr.value.0, sys) && Extends(dr.value.0, rr.value.0))
    ensures Answer(LookupFields(cat, c, sys, fields, bound)) == ResolveFields(cat, sys, fields, bound)
    ensures LookupFields(cat, c, sys, fields, bound).Ok? ==>
      Consistent(cat, LookupFields(cat, c, sys, fields, bound).value.0, sys)
      && Extends(c, LookupFields(cat, c, sys, fields, bound).value.0)
  {
    var dr := Lookup(cat, c, sys, fields[0]);
    if dr.Ok? && dr.value.1.Some? {
      var rr := LookupFields(cat, dr.value.0, sys, fields[1..], bound);
      if rr.Ok? {
        ExtendsTrans(c, dr.value.0, rr.value.0);
      }
    }
  }

  // ---------------------------------------------------------------------
  // Argument patterns of the function catalog (src/codegen.c:645-682)
  // ---------------------------------------------------------------------

  /** strtok_r(args, "/"): the argument type names of a catalog pattern. */
  function Tokens(s: string): seq<string>
  {
    StrTok.Tokens(s, '/')
  }

  /** `__T__`: an argument type repeated to the end of the argument list. */
  predicate IsVariadic(t: string)
  {
    |t| > 4 && t[0] == '_' && t[1] == '_' && t[|t| - 1] == '_' && t[|t| - 2] == '_'
  }

  /** The first position at or after `j` whose type differs from `o`, or the end. */
  function SkipSame(oids: seq<Oid>, j: nat, o: Oid): (r: nat)
    requires j <= |oids|
    ensures j <= r <= |oids|
    ensures forall m | j <= m < r :: oids[m] == o
    ensures r < |oids| ==> oids[r] != o
    decreases |oids| - j
  {
    if j == |oids| || oids[j] != o then j else SkipSame(oids, j + 1, o)
  }

  /**
   * The token loop as written. `ti` and `j` are the loop's token and
   * argument cursors; the result is where they stop. The variadic branch
   * clears only the last '_' before comparing, and after its inner loop
   * the for-statement still advances `j` once more.
   */
  function ScanAsWritten(toks: seq<string>, ti: nat, j: nat, names: seq<string>, oids: seq<Oid>): (r: (nat, nat))
    requires |names| == |oids| && ti <= |toks|
    decreases |toks| - ti
  {
    if ti == |toks| || j >= |oids| then (ti, j)
    else
      var tok := toks[ti];
      if IsVariadic(tok) then
        if tok[2..|tok| - 1] != names[j] then (ti, j)
        else if ti + 1 < |toks| then (ti + 1, j)
        else (|toks|, SkipSame(oids, j, oids[j]) + 1)
      else if tok != names[j] then (ti, j)
      else ScanAsWritten(toks, ti + 1, j + 1, names, oids)
  }

  /** The loop as its comments describe it: `__T__` names T, and the remaining arguments must all be of T's type. */
  function ScanIntended(toks: seq<string>, ti: nat, j: nat, names: seq<string>, oids: seq<Oid>): (r: (nat, nat))
    requires |names| == |oids| && ti <= |toks|
    decreases |toks| - ti
  {
    if ti == |toks| || j >= |oids| then (ti, j)
    else
      var tok := toks[ti];
      if IsVariadic(tok) then
        if tok[2..|tok| - 2] != names[j] then (ti, j)
        else if ti + 1 < |toks| then (ti + 1, j)
        else (|toks|, SkipSame(oids, j, oids[j]))
      else if tok != names[j] then (ti, j)
      else ScanIntended(toks, ti + 1, j + 1, names, oids)
  }

  /** "Ok, found an entry": every token consumed and every argument checked. */
  predicate MatchAsWritten(toks: seq<string>, names: seq<string>, oids: seq<Oid>)
    requires |names| == |oids|
  {
    ScanAsWritten(toks, 0, 0, names, oids) == (|toks|, |oids|)
  }

  predicate MatchIntended(toks: seq<string>, names: seq<string>, oids: seq<Oid>)
    requires |names| == |oids|
  {
    ScanIntended(toks, 0, 0, names, oids) == (|toks|, |oids|)
  }

  /** Tokens before `k` are plain and equal to the argument type names. */
  predicate PlainPrefix(toks: seq<string>, names: seq<string>, k: nat)
    requires k <= |toks| && k <= |names|
  {
    forall i | 0 <= i < k :: !IsVariadic(toks[i]) && toks[i] == names[i]
  }

  /**
   * What a pattern accepts: one plain token per argument naming its type;
   * or plain tokens for a prefix, then a last `__T__` whose T names the
   * next argument's type, every later argument having that same type.
   */
  predicate PatternAccepts(toks: seq<string>, names: seq<string>, oids: seq<Oid>)
    requires |names| == |oids|
  {
    || (|toks| == |names| && PlainPrefix(toks, names, |toks|))
    || (var k := |toks| - 1;
        && 0 <= k < |names| && PlainPrefix(toks, names, k)
        && IsVariadic(toks[k]) && toks[k][2..|toks[k]| - 2] == names[k]
        && forall m | k <= m < |oids| :: oids[m] == oids[k])
  }

  lemma {:induction false} ScanIntendedSpec(toks: seq<string>, i: nat, names: seq<string>, oids: seq<Oid>)
    requires |names| == |oids| && i <= |toks| && i <= |names|
    requires PlainPrefix(toks, names, i)
    ensures ScanIntended(toks, i, i, names, oids) == (|toks|, |oids|) <==> PatternAccepts(toks, names, oids)
    decreases |toks| - i
  {
    if i < |toks| && i < |oids| {
      var tok := toks[i];
      if !IsVariadic(tok) && tok == names[i] {
        ScanIntendedSpec(toks, i + 1, names, oids);
      } else if IsVariadic(tok) && tok[2..|tok| - 2] == names[i] && i + 1 == |toks| {
        var s := SkipSame(oids, i, oids[i]);
        assert s == |oids| <==> forall m | i <= m < |oids| :: oids[m] == oids[i];
      }
    }
  }

  /** The intended loop accepts exactly what `PatternAccepts` describes. */
  lemma MatchIntendedIff(toks: seq<string>, names: seq<string>, oids: seq<Oid>)
    requires |names| == |oids|
    ensures MatchIntended(toks, names, oids) <==> PatternAccepts(toks, names, oids)
  {
    ScanIntendedSpec(toks, 0, names, oids);
  }

  lemma {:induction false} ScanAsWrittenPlain(toks: seq<string>, i: nat, names: seq<string>, oids: seq<Oid>)
    requires |names| == |oids| && i <= |toks| && i <= |names|
    requires PlainPrefix(toks, names, i)
    requires forall n | n in names :: n == [] || n[|n| - 1] != '_'
    ensures ScanAsWritten(toks, i, i, names, oids) == (|toks|, |oids|) <==>
      |toks| == |names| && PlainPrefix(toks, names, |toks|)
    decreases |toks| - i
  {
    if i < |toks| && i < |oids| {
      var tok := toks[i];
      if IsVariadic(tok) {
        var v := tok[2..|tok| - 1];
        assert v[|v| - 1] == '_';
        assert names[i] in names;
      } else if tok == names[i] {
        ScanAsWrittenPlain(toks, i + 1, names, oids);
      }
    }
  }

  /**
   * As written, a `__T__` token never matches an argument whose type name
   * does not end in '_' (no device type name does): the loop accepts only
   * patterns of plain tokens, one per argument.
   */
  lemma MatchAsWrittenOnlyPlain(toks: seq<string>, names: seq<string>, oids: seq<Oid>)
    requires |names| == |oids|
    requires forall n | n in names :: n == [] || n[|n| - 1] != '_'
    ensures MatchAsWritten(toks, names, oids) <==> |toks| == |names| && PlainPrefix(toks, names, |toks|)
  {
    ScanAsWrittenPlain(toks, 0, names, oids);
  }

  /** The catalog's argument string `__text__` is a single variadic token. */
  lemma VariadicTextToken()
    ensures Tokens("__text__") == ["__text__"]
  {
    StrTok.TokensOfJoin(["__text__"], '/');
  }

  /** concat(text, text) against the pattern `__text__`: refused as written. */
  lemma VariadicTextPattern()
    ensures !MatchAsWritten(["__text__"], ["text", "text"], [TEXTOID, TEXTOID])
  {
    var names := ["text", "text"];
    assert forall n | n in names :: n == "text";
    MatchAsWrittenOnlyPlain(["__text__"], names, [TEXTOID, TEXTOID]);
  }

  /** concat(text, text) against the pattern `__text__`: accepted by the intended loop. */
  lemma VariadicTextIntended()
    ensures MatchIntended(["__text__"], ["text", "text"], [TEXTOID, TEXTOID])
  {
    MatchIntendedIff(["__text__"], ["text", "text"], [TEXTOID, TEXTOID]);
    assert "__text__"[2..6] == "text";
  }

  // ---------------------------------------------------------------------
  // Function resolution (src/codegen.c:598-796, 2872-2880)
  // ---------------------------------------------------------------------

  /** A device function: what a devfunc_info entry records. */
  datatype DevFunc = DevFunc(oid: Oid, code: string, name: string, extension: Option<string>,
                             rettype: DevType, flags: set<Flag>, cost: nat, args: seq<DevType>)

  function Names(ds: seq<DevType>): (r: seq<string>)
    ensures |r| == |ds| && forall i | 0 <= i < |ds| :: r[i] == ds[i].name
  {
    if ds == [] then [] else [ds[0].name] + Names(ds[1..])
  }

  predicate RowMatches(row: FuncRow, fext: Option<string>, fname: string, args: seq<DevType>, oids: seq<Oid>)
    requires |args| == |oids|
  {
    row.extension == fext && row.sqlName == fname && MatchAsWritten(Tokens(row.args), Names(args), oids)
  }

  predicate FirstRowAt(rows: seq<FuncRow>, i: nat, fext: Option<string>, fname: string, args: seq<DevType>, oids: seq<Oid>)
    requires |args| == |oids|
  {
    i < |rows| && RowMatches(rows[i], fext, fname, args, oids)
    && forall k | 0 <= k < i :: !RowMatches(rows[k], fext, fname, args, oids)
  }

  /** The position of the first catalog row with the function's extension and name whose pattern accepts the arguments. */
  function FindFuncRow(rows: seq<FuncRow>, fext: Option<string>, fname: string, args: seq<DevType>, oids: seq<Oid>)
    : (r: Option<nat>)
    requires |args| == |oids|
    ensures r.None? <==> forall i | 0 <= i < |rows| :: !RowMatches(rows[i], fext, fname, args, oids)
    ensures r.Some? ==> FirstRowAt(rows, r.value, fext, fname, args, oids)
  {
    if rows == [] then None
    else if RowMatches(rows[0], fext, fname, args, oids) then Some(0)
    else
      match FindFuncRow(rows[1..], fext, fname, args, oids)
      case None => None
      case Some(i) =>
        assert forall k | 0 < k < i + 1 :: rows[k] == rows[1..][k - 1];
        Some(i + 1)
  }

  /** A level above every argument type, so that the argument list can be resolved like composite fields. */
  function Above(sys: SysCache, oids: seq<Oid>): (r: nat)
    ensures forall o | o in oids :: Rank(sys, o) < r
  {
    if oids == [] then 0
    else
      var rest := Above(sys, oids[1..]);
      assert forall o | o in oids :: o == oids[0] || o in oids[1..];
      if Rank(sys, oids[0]) < rest then rest else Rank(sys, oids[0]) + 1
  }

  /**
   * Once the result and argument types are known: a built-in function must
   * live in pg_catalog, and the first matching catalog row supplies the
   * device code, flags and cost.
   */
  function ChooseFunc(rows: seq<FuncRow>, foid: Oid, p: PgProc, rt: DevType, args: seq<DevType>, oids: seq<Oid>)
    : (r: Option<DevFunc>)
    requires |args| == |oids|
    ensures r.Some? <==>
      (p.extension.Some? || p.namespace == PG_CATALOG_NAMESPACE)
      && exists i | 0 <= i < |rows| :: RowMatches(rows[i], p.extension, p.name, args, oids)
    ensures r.Some? ==> exists i: nat :: (FirstRowAt(rows, i, p.extension, p.name, args, oids)
      && r.value == DevFunc(foid, rows[i].devName, p.name, p.extension, rt, rows[i].flags, rows[i].cost, args))
  {
    if p.extension.None? && p.namespace != PG_CATALOG_NAMESPACE then None
    else
      match FindFuncRow(rows, p.extension, p.name, args, oids)
      case None => None
      case Some(i) => Some(DevFunc(foid, rows[i].devName, p.name, p.extension, rt, rows[i].flags, rows[i].cost, args))
  }

  /** pgstrom_devfunc_build computed afresh. */
  function ResolveFuncBuild(cat: seq<TypeEntry>, rows: seq<FuncRow>, sys: SysCache, foid: Oid, oids: seq<Oid>)
    : (r: Result<Option<DevFunc>>)
    requires Leveled(sys)
    ensures r.Err? ==> r.msg in CatalogErrors
  {
    if foid !in sys.procs then Err("cache lookup failed on procedure")
    else
      var p := sys.procs[foid];
      var rt :- Resolve(cat, sys, p.rettype);
      if rt.None? then Ok(None)
      else ResolveFuncArgs(cat, rows, sys, foid, p, rt.value, oids)
  }

  function ResolveFuncArgs(cat: seq<TypeEntry>, rows: seq<FuncRow>, sys: SysCache,
                           foid: Oid, p: PgProc, rt: DevType, oids: seq<Oid>): (r: Result<Option<DevFunc>>)
    requires Leveled(sys)
    ensures r.Err? ==> r.msg in CatalogErrors
  {
    var args :- ResolveFields(cat, sys, oids, Above(sys, oids));
    if args.None? then Ok(None)
    else
      Ok(ChooseFunc(rows, foid, p, rt, args.value, oids))
  }

  /** pgstrom_devfunc_build with the type memo threaded through its type lookups. */
  function BuildFunc(cat: seq<TypeEntry>, rows: seq<FuncRow>, c: TypeMemo, sys: SysCache, foid: Oid, oids: seq<Oid>)
    : (r: Result<(TypeMemo, Option<DevFunc>)>)
    requires Leveled(sys)
  {
    if foid !in sys.procs then Err("cache lookup failed on procedure")
    else
      var p := sys.procs[foid];
      var rr :- Lookup(cat, c, sys, p.rettype);
      if rr.1.None? then Ok((rr.0, None))
      else BuildFuncArgs(cat, rows, rr.0, sys, foid, p, rr.1.value, oids)
  }

  function BuildFuncArgs(cat: seq<TypeEntry>, rows: seq<FuncRow>, c: TypeMemo, sys: SysCache,
                         foid: Oid, p: PgProc, rt: DevType, oids: seq<Oid>): (r: Result<(TypeMemo, Option<DevFunc>)>)
    requires Leveled(sys)
  {
    var ar :- LookupFields(cat, c, sys, oids, Above(sys, oids));
    if ar.1.None? then Ok((ar.0, None))
    else
      LookupFieldsLength(cat, c, sys, oids, Above(sys, oids));
      Ok((ar.0, ChooseFunc(rows, foid, p, rt, ar.1.value, oids)))
  }

  lemma BuildFuncArgsAgree(cat: seq<TypeEntry>, rows: seq<FuncRow>, c: TypeMemo, sys: SysCache,
                           foid: Oid, p: PgProc, rt: DevType, oids: seq<Oid>)
    requires Leveled(sys) && Consistent(cat, c, sys)
    ensures Answer(BuildFuncArgs(cat, rows, c, sys, foid, p, rt, oids)) == ResolveFuncArgs(cat, rows, sys, foid, p, rt, oids)
    ensures BuildFuncArgs(cat, rows, c, sys, foid, p, rt, oids).Ok? ==>
      Consistent(cat, BuildFuncArgs(cat, rows, c, sys, foid, p, rt, oids).value.0, sys)
      && Extends(c, BuildFuncArgs(cat, rows, c, sys, foid, p, rt, oids).value.0)
  {
    LookupFieldsAgree(cat, c, sys, oids, Above(sys, oids));
  }

  lemma {:induction false} LookupFieldsLength(cat: seq<TypeEntry>, c: TypeMemo, sys: SysCache, fields: seq<Oid>, bound: nat)
    requires Leveled(sys)
    requires forall f | f in fields :: Rank(sys, f) < bound
    requires LookupFields(cat, c, sys, fields, bound).Ok? && LookupFields(cat, c, sys, fields, bound).value.1.Some?
    ensures |LookupFields(cat, c, sys, fields, bound).value.1.value| == |fields|
    decreases |fields|
  {
    if fields != [] {
      var dr := Lookup(cat, c, sys, fields[0]);
      LookupFieldsLength(cat, dr.value.0, sys, fields[1..], bound);
    }
  }

  /** The negative-entry path looks up every argument type, without stopping at one that is not device-executable. */
  function ResolveEach(cat: seq<TypeEntry>, sys: SysCache, oids: seq<Oid>): (r: Result<()>)
    requires Leveled(sys)
    ensures r.Err? ==> r.msg in CatalogErrors
    decreases |oids|
  {
    if oids == [] then Ok(())
    else
      var _ :- Resolve(cat, sys, oids[0]);
      ResolveEach(cat, sys, oids[1..])
  }

  function LookupEach(cat: seq<TypeEntry>, c: TypeMemo, sys: SysCache, oids: seq<Oid>): (r: Result<TypeMemo>)
    requires Leveled(sys)
    decreases |oids|
  {
    if oids == [] then Ok(c)
    else
      var dr :- Lookup(cat, c, sys, oids[0]);
      LookupEach(cat, dr.0, sys, oids[1..])
  }

  /** The device function for a call, computed afresh; a failed build becomes a negative answer. */
  function ResolveFunc(cat: seq<TypeEntry>, rows: seq<FuncRow>, sys: SysCache, foid: Oid, oids: seq<Oid>)
    : (r: Result<Option<DevFunc>>)
    requires Leveled(sys)
    ensures r.Err? ==> r.msg in CatalogErrors
  {
    var b :- ResolveFuncBuild(cat, rows, sys, foid, oids);
    if b.None? then
      var _ :- ResolveEach(cat, sys, oids);
      Ok(None)
    else Ok(b)
  }

  /**
   * The function resolution as compiled: the result and argument types go
   * through pgstrom_devtype_lookup (src/codegen.c:617-626, 766-772), which
   * refuses a domain at any depth (ResolveAsWritten), so a function over a
   * domain is not device-executable; elsewhere it answers as ResolveFunc.
   */
  function ResolveFuncAsWritten(cat: seq<TypeEntry>, rows: seq<FuncRow>, sys: SysCache, foid: Oid, oids: seq<Oid>)
    : (r: Result<Option<DevFunc>>)
    requires Leveled(sys)
    ensures r.Err? ==> r.msg in CatalogErrors
    ensures r.Ok? && r.value.Some? ==> r == ResolveFunc(cat, rows, sys, foid, oids)
    ensures ResolveFunc(cat, rows, sys, foid, oids) == Ok(None) ==> r.Ok? && r.value.None?
    ensures NoDomains(sys) ==> r == ResolveFunc(cat, rows, sys, foid, oids)
  {
    var b :- ResolveFuncBuildAsWritten(cat, rows, sys, foid, oids);
    if b.None? then
      var _ :- ResolveEachAsWritten(cat, sys, oids);
      Ok(None)
    else Ok(b)
  }

  function ResolveFuncBuildAsWritten(cat: seq<TypeEntry>, rows: seq<FuncRow>, sys: SysCache, foid: Oid, oids: seq<Oid>)
    : (r: Result<Option<DevFunc>>)
    requires Leveled(sys)
    ensures var c := ResolveFuncBuild(cat, rows, sys, foid, oids);
      && (r.Err? ==> r.msg in CatalogErrors)
      && (r.Ok? && r.value.Some? ==> r == c)
      && (c == Ok(None) ==> r == Ok(None))
      && (NoDomains(sys) ==> r == c)
  {
    if foid !in sys.procs then Err("cache lookup failed on procedure")
    else
      var p := sys.procs[foid];
      var rt :- ResolveAsWritten(cat, sys, p.rettype);
      if rt.None? then Ok(None)
      else
        var args :- ResolveFieldsAsWritten(cat, sys, oids, Above(sys, oids));
        if args.None? then Ok(None)
        else Ok(ChooseFunc(rows, foid, p, rt.value, args.value, oids))
  }

  /** ResolveEach through the lookup as compiled: it fails where ResolveEach fails on a catalog without domains. */
  function ResolveEachAsWritten(cat: seq<TypeEntry>, sys: SysCache, oids: seq<Oid>): (r: Result<()>)
    requires Leveled(sys)
    ensures r.Err? ==> r.msg in CatalogErrors
    ensures ResolveEach(cat, sys, oids).Ok? ==> r.Ok?
    ensures NoDomains(sys) ==> r == ResolveEach(cat, sys, oids)
    decreases |oids|
  {
    if oids == [] then Ok(())
    else
      var _ :- ResolveAsWritten(cat, sys, oids[0]);
      ResolveEachAsWritten(cat, sys, oids[1..])
  }

  /** A collation-dependent function is refused under a collation other than C. */
  function Admit(e: Option<DevFunc>, collid: Oid, sys: SysCache): (r: Option<DevFunc>)
    ensures r.Some? ==> r == e
    ensures e.Some? && r.None? <==>
      e.Some? && collid != InvalidOid && collid !in sys.cCollations && LocaleAware in e.value.flags
  {
    if e.Some? && collid != InvalidOid && collid !in sys.cCollations && LocaleAware in e.value.flags then None
    else e
  }

  type FuncMemo = map<(Oid, seq<Oid>), Option<DevFunc>>

  /** The two memos (the by-opcode indexes of the server hold nothing else). */
  datatype DevCache = DevCache(types: TypeMemo, funcs: FuncMemo)

  /** __pgstrom_devfunc_lookup: the memo is keyed by the function and its argument types. */
  function FuncLookup(cat: seq<TypeEntry>, rows: seq<FuncRow>, cache: DevCache, sys: SysCache,
                      foid: Oid, oids: seq<Oid>, collid: Oid): (r: Result<(DevCache, Option<DevFunc>)>)
    requires Leveled(sys)
  {
    var key := (foid, oids);
    if key in cache.funcs then Ok((cache, Admit(cache.funcs[key], collid, sys)))
    else
      var (tm, e) :- FuncMiss(cat, rows, cache.types, sys, foid, oids);
      Ok((DevCache(tm, cache.funcs[key := e]), Admit(e, collid, sys)))
  }

  /** A memo miss: build the entry, and for a negative one still look up every argument type. */
  function FuncMiss(cat: seq<TypeEntry>, rows: seq<FuncRow>, c: TypeMemo, sys: SysCache, foid: Oid, oids: seq<Oid>)
    : (r: Result<(TypeMemo, Option<DevFunc>)>)
    requires Leveled(sys)
  {
    var br :- BuildFunc(cat, rows, c, sys, foid, oids);
    if br.1.None? then
      var tm :- LookupEach(cat, br.0, sys, oids);
      Ok((tm, None))
    else Ok(br)
  }

  lemma FuncMissAgrees(cat: seq<TypeEntry>, rows: seq<FuncRow>, c: TypeMemo, sys: SysCache, foid: Oid, oids: seq<Oid>)
    requires Leveled(sys) && Consistent(cat, c, sys)
    ensures Answer(FuncMiss(cat, rows, c, sys, foid, oids)) == ResolveFunc(cat, rows, sys, foid, oids)
    ensures FuncMiss(cat, rows, c, sys, foid, oids).Ok? ==>
      Consistent(cat, FuncMiss(cat, rows, c, sys, foid, oids).value.0, sys)
      && Extends(c, FuncMiss(cat, rows, c, sys, foid, oids).value.0)
  {
    BuildFuncAgrees(cat, rows, c, sys, foid, oids);
    var br := BuildFunc(cat, rows, c, sys, foid, oids);
    if br.Ok? && br.value.1.None? {
      LookupEachAgrees(cat, br.value.0, sys, oids);
      var tm := LookupEach(cat, br.value.0, sys, oids);
      if tm.Ok? {
        ExtendsTrans(c, br.value.0, tm.value);
      }
    }
  }

  predicate CacheConsistent(cat: seq<TypeEntry>, rows: seq<FuncRow>, cache: DevCache, sys: SysCache)
    requires Leveled(sys)
  {
    && Consistent(cat, cache.types, sys)
    && forall k | k in cache.funcs :: ResolveFunc(cat, rows, sys, k.0, k.1) == Ok(cache.funcs[k])
  }

  lemma {:induction false} LookupEachAgrees(cat: seq<TypeEntry>, c: TypeMemo, sys: SysCache, oids: seq<Oid>)
    requires Leveled(sys) && Consistent(cat, c, sys)
    ensures LookupEach(cat, c, sys, oids).Err? <==> ResolveEach(cat, sys, oids).Err?
    ensures LookupEach(cat, c, sys, oids).Err? ==> LookupEach(cat, c, sys, oids).msg == ResolveEach(cat, sys, oids).msg
    ensures LookupEach(cat, c, sys, oids).Ok? ==>
      Consistent(cat, LookupEach(cat, c, sys, oids).value, sys) && Extends(c, LookupEach(cat, c, sys, oids).value)
    decreases |oids|
  {
    if oids != [] {
      LookupAgrees(cat, c, sys, oids[0]);
      var dr := Lookup(cat, c, sys, oids[0]);
      if dr.Ok? {
        LookupEachAgrees(cat, dr.value.0, sys, oids[1..]);
        var rest := LookupEach(cat, dr.value.0, sys, oids[1..]);
        if rest.Ok? {
          ExtendsTrans(c, dr.value.0, rest.value);
        }
      }
    }
  }

  lemma BuildFuncAgrees(cat: seq<TypeEntry>, rows: seq<FuncRow>, c: TypeMemo, sys: SysCache, foid: Oid, oids: seq<Oid>)
    requires Leveled(sys) && Consistent(cat, c, sys)
    ensures Answer(BuildFunc(cat, rows, c, sys, foid, oids)) == ResolveFuncBuild(cat, rows, sys, foid, oids)
    ensures BuildFunc(cat, rows, c, sys, foid, oids).Ok? ==>
      Consistent(cat, BuildFunc(cat, rows, c, sys, foid, oids).value.0, sys)
      && Extends(c, BuildFunc(cat, rows, c, sys, foid, oids).value.0)
  {
    if foid in sys.procs {
      var p := sys.procs[foid];
      LookupAgrees(cat, c, sys, p.rettype);
      var rr := Lookup(cat, c, sys, p.rettype);
      if rr.Ok? && rr.value.1.Some? {
        BuildFuncArgsAgree(cat, rows, rr.value.0, sys, foid, p, rr.value.1.value, oids);
        var ar := BuildFuncArgs(cat, rows, rr.value.0, sys, foid, p, rr.value.1.value, oids);
        if ar.Ok? {
          ExtendsTrans(c, rr.value.0, ar.value.0);
        }
      }
    }
  }

  predicate FuncLookupOutcome(cat: seq<TypeEntry>, rows: seq<FuncRow>, cache: DevCache, sys: SysCache,
                              foid: Oid, oids: seq<Oid>, collid: Oid, out: (DevCache, Option<DevFunc>), anew: Option<DevFunc>)
    requires Leveled(sys)
  {
    && out.1 == Admit(anew, collid, sys)
    && CacheConsistent(cat, rows, out.0, sys)
    && Extends(cache.types, out.0.types) && Extends(cache.funcs, out.0.funcs)
    && (foid, oids) in out.0.funcs
  }

  /**
   * The function memo is transparent too: from consistent memos a lookup
   * answers what a fresh resolution answers, after the collation check,
   * and leaves consistent memos that keep every old entry.
   */
  lemma FuncLookupAgrees(cat: seq<TypeEntry>, rows: seq<FuncRow>, cache: DevCache, sys: SysCache,
                         foid: Oid, oids: seq<Oid>, collid: Oid)
    requires Leveled(sys) && CacheConsistent(cat, rows, cache, sys)
    ensures var r := FuncLookup(cat, rows, cache, sys, foid, oids, collid);
      var s := ResolveFunc(cat, rows, sys, foid, oids);
      && (r.Err? <==> s.Err?)
      && (r.Err? ==> r.msg == s.msg)
      && (r.Ok? ==> FuncLookupOutcome(cat, rows, cache, sys, foid, oids, collid, r.value, s.value))
  {
    var key := (foid, oids);
    if key !in cache.funcs {
      FuncMissAgrees(cat, rows, cache.types, sys, foid, oids);
      var m := FuncMiss(cat, rows, cache.types, sys, foid, oids);
      if m.Ok? {
        var funcs := cache.funcs[key := m.value.1];
        assert forall k | k in funcs :: ResolveFunc(cat, rows, sys, k.0, k.1) == Ok(funcs[k]);
        ExtendsInsert(cache.funcs, cache.funcs, key, m.value.1);
      }
    }
  }

  /** Asking twice gives the same answer and leaves the memos as the first call left them. */
  lemma FuncLookupIdempotent(cat: seq<TypeEntry>, rows: seq<FuncRow>, cache: DevCache, sys: SysCache,
                             foid: Oid, oids: seq<Oid>, collid: Oid)
    requires Leveled(sys) && CacheConsistent(cat, rows, cache, sys)
    requires FuncLookup(cat, rows, cache, sys, foid, oids, collid).Ok?
    ensures var (c2, d) := FuncLookup(cat, rows, cache, sys, foid, oids, collid).value;
      FuncLookup(cat, rows, c2, sys, foid, oids, collid) == Ok((c2, d))
  {
    FuncLookupAgrees(cat, rows, cache, sys, foid, oids, collid);
  }

  /** pgstrom_devcache_invalidator: every memo is emptied. */
  function Invalidate(cache: DevCache): (r: DevCache)
  {
    DevCache(map[], map[])
  }

  /** After invalidation the next lookup answers from the current system catalogs, whatever they now hold. */
  lemma InvalidateThenLookup(cat: seq<TypeEntry>, rows: seq<FuncRow>, cache: DevCache, sys: SysCache,
                             foid: Oid, oids: seq<Oid>, collid: Oid)
    requires Leveled(sys)
    ensures var r := FuncLookup(cat, rows, Invalidate(cache), sys, foid, oids, collid);
      var s := ResolveFunc(cat, rows, sys, foid, oids);
      && (r.Err? <==> s.Err?)
      && (r.Ok? ==> r.value.1 == Admit(s.value, collid, sys) && CacheConsistent(cat, rows, r.value.0, sys))
  {
    assert CacheConsistent(cat, rows, Invalidate(cache), sys);
    FuncLookupAgrees(cat, rows, Invalidate(cache), sys, foid, oids, collid);
  }

  /**
   * __pgstrom_devfunc_lookup as written (src/codegen.c:737-778): the slot
   * index `i` is reused as the counter of the loop that looks up the
   * argument types of a negative entry, so that entry is filed in slot
   * func_nargs instead of `slot`, the one its signature hashes to, and a
   * later call finds it only when the two coincide. Positive entries are
   * filed where they are searched for.
   */
  function FuncLookupAsWritten(cat: seq<TypeEntry>, rows: seq<FuncRow>, cache: DevCache, sys: SysCache,
                               foid: Oid, oids: seq<Oid>, collid: Oid, slot: nat)
    : (r: Result<(DevCache, Option<DevFunc>)>)
    requires Leveled(sys)
    ensures r.Ok? ==> Extends(cache.funcs, r.value.0.funcs)
    ensures r.Ok? ==> r.value.0.funcs.Keys <= cache.funcs.Keys + {(foid, oids)}
  {
    var key := (foid, oids);
    if key in cache.funcs then Ok((cache, Admit(cache.funcs[key], collid, sys)))
    else
      var (tm, e) :- FuncMiss(cat, rows, cache.types, sys, foid, oids);
      var filed := e.Some? || slot == |oids|;
      Ok((DevCache(tm, if filed then cache.funcs[key := e] else cache.funcs), Admit(e, collid, sys)))
  }

  /** The misfiling costs no answer: as written a lookup answers what the memoised lookup answers. */
  lemma AsWrittenAnswers(cat: seq<TypeEntry>, rows: seq<FuncRow>, cache: DevCache, sys: SysCache,
                         foid: Oid, oids: seq<Oid>, collid: Oid, slot: nat)
    requires Leveled(sys)
    ensures var r := FuncLookupAsWritten(cat, rows, cache, sys, foid, oids, collid, slot);
      var s := FuncLookup(cat, rows, cache, sys, foid, oids, collid);
      && (r.Err? <==> s.Err?)
      && (r.Ok? ==> r.value.1 == s.value.1 && r.value.0.types == s.value.0.types)
  {
  }

  /**
   * As written, a function with arguments and no device implementation is
   * not remembered unless its hash slot happens to equal its argument
   * count: the next call misses again and rebuilds it.
   */
  lemma AsWrittenForgetsNegative(cat: seq<TypeEntry>, rows: seq<FuncRow>, cache: DevCache, sys: SysCache,
                                 foid: Oid, oids: seq<Oid>, collid: Oid, slot: nat)
    requires Leveled(sys) && (foid, oids) !in cache.funcs && slot != |oids|
    requires ResolveFunc(cat, rows, sys, foid, oids) == Ok(None) && CacheConsistent(cat, rows, cache, sys)
    ensures var r := FuncLookupAsWritten(cat, rows, cache, sys, foid, oids, collid, slot);
      r.Ok? && r.value.1.None? && r.value.0.funcs == cache.funcs && (foid, oids) !in r.value.0.funcs
  {
    FuncMissAgrees(cat, rows, cache.types, sys, foid, oids);
  }

  /** The memoised lookup remembers the same negative answer, so the next call is a hit. */
  lemma IntendedKeepsNegative(cat: seq<TypeEntry>, rows: seq<FuncRow>, cache: DevCache, sys: SysCache,
                              foid: Oid, oids: seq<Oid>, collid: Oid)
    requires Leveled(sys) && (foid, oids) !in cache.funcs
    requires ResolveFunc(cat, rows, sys, foid, oids) == Ok(None) && CacheConsistent(cat, rows, cache, sys)
    ensures var r := FuncLookup(cat, rows, cache, sys, foid, oids, collid);
      r.Ok? && r.value.1.None? && r.value.0.funcs == cache.funcs[(foid, oids) := None]
  {
    FuncMissAgrees(cat, rows, cache.types, sys, foid, oids);
  }
}
