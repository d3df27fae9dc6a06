/** The report rows and sheets of lib/utils/excelUtils.ts: flattening one opportunity record into
    a row of strings, the fixed column schema, and building one worksheet per labelled list of
    opportunities (bold frozen header, one row per opportunity, hyperlinked link columns, wrapped
    resource links). The workbook is modelled in memory; its binary encoding is not. */
module ExcelUtils {
  import opened Nullish
  import opened JsText
  import Helpers

  // ---- the opportunity record (the fields of types/sam/v2.ts the flattener reads) -------------

  /** One point of contact; every field may be absent or null. `contactType` is the record's `type`. */
  datatype PointOfContact = PointOfContact(
    fax: Option<string>,
    contactType: Option<string>,
    email: Option<string>,
    phone: Option<string>,
    title: Option<string>,
    fullName: Option<string>)

  datatype OfficeAddress = OfficeAddress(
    zipcode: Option<string>,
    city: Option<string>,
    countryCode: Option<string>,
    state: Option<string>)

  /** One opportunity as the search API returns it. Only the notice id and the title are required;
      `noticeType` is the record's `type`. */
  datatype Opportunity = Opportunity(
    noticeId: string,
    title: string,
    solicitationNumber: Option<string>,
    fullParentPathName: Option<string>,
    fullParentPathCode: Option<string>,
    postedDate: Option<string>,
    responseDeadLine: Option<string>,
    archiveDate: Option<string>,
    noticeType: Option<string>,
    active: Option<string>,
    typeOfSetAsideDescription: Option<string>,
    typeOfSetAside: Option<string>,
    naicsCode: Option<string>,
    naicsCodes: Option<seq<string>>,
    classificationCode: Option<string>,
    pointOfContact: Option<seq<PointOfContact>>,
    description: Option<string>,
    officeAddress: Option<OfficeAddress>,
    additionalInfoLink: Option<string>,
    uiLink: Option<string>,
    resourceLinks: Option<seq<string>>)

  // ---- the flat row -----------------------------------------------------------------------------

  /** The keys of the flat row that the flattener fills (`keyof OpportunityRow`, restricted to them). */
  datatype RowKey =
    | NoticeId | Title | SolicitationNumber | PostedDate | ResponseDeadLine | ArchiveDate | Active
    | NoticeType | TypeOfSetAsideDescription | TypeOfSetAside
    | NaicsCode | NaicsCodes | ClassificationCode
    | FullParentPathName | FullParentPathCode
    | OfficeCity | OfficeState | OfficeZip | OfficeCountry
    | PocEmail | PocFullName | PocPhone | PocFax
    | UiLink | DescriptionLink | AdditionalInfoLink
    | ResourceLinks

  /** One flattened opportunity: every field a string. `noticeType` is the row's `type`. */
  datatype OpportunityRow = OpportunityRow(
    noticeId: string,
    title: string,
    solicitationNumber: string,
    postedDate: string,
    responseDeadLine: string,
    archiveDate: string,
    active: string,
    noticeType: string,
    typeOfSetAsideDescription: string,
    typeOfSetAside: string,
    naicsCode: string,
    naicsCodes: string,
    classificationCode: string,
    fullParentPathName: string,
    fullParentPathCode: string,
    officeCity: string,
    officeState: string,
    officeZip: string,
    officeCountry: string,
    pocEmail: string,
    pocFullName: string,
    pocPhone: string,
    pocFax: string,
    uiLink: string,
    descriptionLink: string,
    additionalInfoLink: string,
    resourceLinks: string)

  /** `row[key]`. */
  function Field(row: OpportunityRow, key: RowKey): string
  {
    match key
    case NoticeId => row.noticeId
    case Title => row.title
    case SolicitationNumber => row.solicitationNumber
    case PostedDate => row.postedDate
    case ResponseDeadLine => row.responseDeadLine
    case ArchiveDate => row.archiveDate
    case Active => row.active
    case NoticeType => row.noticeType
    case TypeOfSetAsideDescription => row.typeOfSetAsideDescription
    case TypeOfSetAside => row.typeOfSetAside
    case NaicsCode => row.naicsCode
    case NaicsCodes => row.naicsCodes
    case ClassificationCode => row.classificationCode
    case FullParentPathName => row.fullParentPathName
    case FullParentPathCode => row.fullParentPathCode
    case OfficeCity => row.officeCity
    case OfficeState => row.officeState
    case OfficeZip => row.officeZip
    case OfficeCountry => row.officeCountry
    case PocEmail => row.pocEmail
    case PocFullName => row.pocFullName
    case PocPhone => row.pocPhone
    case PocFax => row.pocFax
    case UiLink => row.uiLink
    case DescriptionLink => row.descriptionLink
    case AdditionalInfoLink => row.additionalInfoLink
    case ResourceLinks => row.resourceLinks
  }

  // ---- the helpers of the flattener ---------------------------------------------------------------

  /** `s(value)`: a nullish value becomes the empty string, a string stays itself. */
  function S(value: Option<string>): (r: string)
    ensures value.None? ==> r == ""
    ensures value.Some? ==> r == value.value
  {
    value.OrElse("")
  }

  /** `join(values, delimiter)`: "" when `values` is not an array, otherwise its non-empty
      entries joined by `delimiter`. */
  function JoinValues(values: Option<seq<string>>, delimiter: string): (r: string)
    ensures r == "" <==> values.None? || forall i :: 0 <= i < |values.value| ==> values.value[i] == ""
  {
    match values
    case None => ""
    case Some(xs) =>
      NonEmptyEmptyIff(xs);
      Join(NonEmpty(xs), delimiter)
  }

  /** `joinLines(values)`: `join` with a newline, so also "" exactly when there is no array or
      every entry is empty. */
  function JoinLines(values: Option<seq<string>>): (r: string)
    ensures r == "" <==> values.None? || forall i :: 0 <= i < |values.value| ==> values.value[i] == ""
  {
    JoinValues(values, "\n")
  }

  predicate IsPrimary(p: PointOfContact)
  {
    p.contactType == Some("primary")
  }

  /** `pocs.find(p => p.type === 'primary')`: the first contact marked primary, if any. */
  function FindPrimary(pocs: seq<PointOfContact>): (r: Option<PointOfContact>)
    ensures r.None? <==> forall i :: 0 <= i < |pocs| ==> !IsPrimary(pocs[i])
    ensures r.Some? ==> exists i :: 0 <= i < |pocs| && r.value == pocs[i] && IsPrimary(pocs[i])
                                    && forall j :: 0 <= j < i ==> !IsPrimary(pocs[j])
  {
    if pocs == [] then None
    else if IsPrimary(pocs[0]) then Some(pocs[0])
    else
      var r := FindPrimary(pocs[1..]);
      if r.Some? then
        ghost var i :| 0 <= i < |pocs[1..]| && r.value == pocs[1..][i] && IsPrimary(pocs[1..][i])
                       && forall j :: 0 <= j < i ==> !IsPrimary(pocs[1..][j]);
        assert forall j :: 0 <= j < i + 1 ==> !IsPrimary(pocs[j]) by {
          forall j | 0 <= j < i + 1 ensures !IsPrimary(pocs[j]) {
            if j > 0 { assert pocs[j] == pocs[1..][j - 1]; }
          }
        }
        r
      else
        assert forall i :: 1 <= i < |pocs| ==> pocs[i] == pocs[1..][i - 1];
        r
  }

  /** The contacts of an opportunity; an absent list counts as empty. */
  function Contacts(opp: Opportunity): (pocs: seq<PointOfContact>)
    ensures opp.pointOfContact.None? ==> pocs == []
    ensures opp.pointOfContact.Some? ==> pocs == opp.pointOfContact.value
  {
    opp.pointOfContact.OrElse([])
  }

  /** `pickPrimaryPoc(opp)`: the first contact whose type is exactly "primary"; failing that the
      first contact; failing that (no list, or an empty one) none. */
  function PickPrimaryPoc(opp: Opportunity): (r: Option<PointOfContact>)
    ensures var pocs := Contacts(opp);
      && (r.None? <==> pocs == [])
      && ((exists i :: 0 <= i < |pocs| && IsPrimary(pocs[i])) ==>
            exists i :: 0 <= i < |pocs| && r == Some(pocs[i]) && IsPrimary(pocs[i])
                        && forall j :: 0 <= j < i ==> !IsPrimary(pocs[j]))
      && ((forall i :: 0 <= i < |pocs| ==> !IsPrimary(pocs[i])) ==>
            r == if pocs == [] then None else Some(pocs[0]))
  {
    var pocs := Contacts(opp);
    match FindPrimary(pocs)
    case Some(p) => Some(p)
    case None => if pocs != [] then Some(pocs[0]) else None
  }

  /** When exactly one contact is marked primary it is the one picked, wherever it stands. */
  lemma PickTheOnlyPrimary(opp: Opportunity, k: nat)
    requires k < |Contacts(opp)| && IsPrimary(Contacts(opp)[k])
    requires forall j :: 0 <= j < |Contacts(opp)| && j != k ==> !IsPrimary(Contacts(opp)[j])
    ensures PickPrimaryPoc(opp) == Some(Contacts(opp)[k])
  {
  }

  // ---- row construction (lines 99-137) -------------------------------------------------------------

  /** The flat row `addOpportunitiesSheet` builds for one opportunity: every scalar through `s`,
      the classification codes comma-joined, the resource links newline-joined, the office address
      and the picked contact flattened field by field. */
  function FlattenOpportunity(opp: Opportunity): (row: OpportunityRow)
    ensures row.noticeId == opp.noticeId && row.title == opp.title
    ensures PickPrimaryPoc(opp).None? ==>
              row.pocEmail == "" && row.pocFullName == "" && row.pocPhone == "" && row.pocFax == ""
    ensures PickPrimaryPoc(opp).Some? ==>
              var poc := PickPrimaryPoc(opp).value;
              row.pocEmail == S(poc.email) && row.pocFullName == S(poc.fullName)
              && row.pocPhone == S(poc.phone) && row.pocFax == S(poc.fax)
    ensures opp.officeAddress.None? ==>
              row.officeCity == "" && row.officeState == "" && row.officeZip == "" && row.officeCountry == ""
    ensures row.descriptionLink == S(opp.description)
  {
    var poc := PickPrimaryPoc(opp);
    var office := opp.officeAddress;
    OpportunityRow(
      noticeId := S(Some(opp.noticeId)),
      title := S(Some(opp.title)),
      solicitationNumber := S(opp.solicitationNumber),
      postedDate := S(opp.postedDate),
      responseDeadLine := S(opp.responseDeadLine),
      archiveDate := S(opp.archiveDate),
      active := S(opp.active),
      noticeType := S(opp.noticeType),
      typeOfSetAsideDescription := S(opp.typeOfSetAsideDescription),
      typeOfSetAside := S(opp.typeOfSetAside),
      naicsCode := S(opp.naicsCode),
      naicsCodes := JoinValues(opp.naicsCodes, ", "),
      classificationCode := S(opp.classificationCode),
      fullParentPathName := S(opp.fullParentPathName),
      fullParentPathCode := S(opp.fullParentPathCode),
      officeCity := S(if office.Some? then office.value.city else None),
      officeState := S(if office.Some? then office.value.state else None),
      officeZip := S(if office.Some? then office.value.zipcode else None),
      officeCountry := S(if office.Some? then office.value.countryCode else None),
      pocEmail := S(if poc.Some? then poc.value.email else None),
      pocFullName := S(if poc.Some? then poc.value.fullName else None),
      pocPhone := S(if poc.Some? then poc.value.phone else None),
      pocFax := S(if poc.Some? then poc.value.fax else None),
      uiLink := S(opp.uiLink),
      descriptionLink := S(opp.description),
      additionalInfoLink := S(opp.additionalInfoLink),
      resourceLinks := JoinLines(opp.resourceLinks))
  }

  /** An opportunity with every optional field missing flattens without failing to a row whose
      only non-empty fields can be the notice id and the title. */
  lemma FlattenBareOpportunity(noticeId: string, title: string)
    ensures var row := FlattenOpportunity(Opportunity(noticeId, title, None, None, None, None, None, None,
                                          None, None, None, None, None, None, None, None, None, None, None, None, None));
      && row.noticeId == noticeId && row.title == title
      && forall k :: k != NoticeId && k != Title ==> Field(row, k) == ""
  {
  }

  /** Splitting the newline-joined resource links on newlines gives back exactly the non-empty
      links, in their original order (for links without newlines of their own). */
  lemma JoinLinesReadsBack(links: seq<string>)
    requires NonEmpty(links) != []
    requires forall i :: 0 <= i < |links| ==> '\n' !in links[i]
    ensures Split(JoinLines(Some(links)), '\n') == NonEmpty(links)
  {
    var kept := NonEmpty(links);
    assert forall i :: 0 <= i < |kept| ==> '\n' !in kept[i];
    assert "\n" == ['\n'];
    SplitJoinInverse(kept, '\n');
  }

  /** Splitting the comma-joined classification codes on commas gives back the non-empty codes in
      their original order, each after the first behind the space of the delimiter ", " (for codes
      without commas). */
  lemma JoinCodesReadsBack(codes: seq<string>)
    requires NonEmpty(codes) != []
    requires forall i :: 0 <= i < |codes| ==> ',' !in codes[i]
    ensures var kept := NonEmpty(codes);
      Split(JoinValues(Some(codes), ", "), ',') == [kept[0]] + Prefixed(" ", kept[1..])
  {
    var kept := NonEmpty(codes);
    NonEmptyKeepsOut(codes, ',');
    SplitJoinCommaSpace(kept);
  }

  // ---- the column schema (lines 47-82) ------------------------------------------------------------

  /** One column: its header text, the row key it shows and its display width. */
  datatype Column = Column(header: string, key: RowKey, width: nat)

  /** The fixed schema shared by every sheet: 27 columns, in order. */
  const Columns: seq<Column> := [
    Column("Notice ID", NoticeId, 36),
    Column("Title", Title, 50),
    Column("Solicitation #", SolicitationNumber, 18),
    Column("Posted Date", PostedDate, 12),
    Column("Response Deadline", ResponseDeadLine, 16),
    Column("Archive Date", ArchiveDate, 12),
    Column("Active", Active, 8),
    Column("Type", NoticeType, 26),
    Column("Set-Aside", TypeOfSetAsideDescription, 34),
    Column("Set-Aside Code", TypeOfSetAside, 14),
    Column("NAICS", NaicsCode, 10),
    Column("NAICS Codes", NaicsCodes, 18),
    Column("Class Code", ClassificationCode, 10),
    Column("Agency Path", FullParentPathName, 60),
    Column("Agency Code", FullParentPathCode, 20),
    Column("Office City", OfficeCity, 16),
    Column("Office State", OfficeState, 12),
    Column("Office Zip", OfficeZip, 12),
    Column("Office Country", OfficeCountry, 12),
    Column("POC Email", PocEmail, 28),
    Column("POC Name", PocFullName, 35),
    Column("POC Phone", PocPhone, 16),
    Column("POC Fax", PocFax, 16),
    Column("UI Link", UiLink, 55),
    Column("Description Link", DescriptionLink, 55),
    Column("Additional Info Link", AdditionalInfoLink, 55),
    Column("Resource Links", ResourceLinks, 55)
  ]

  /** The single-link columns that become hyperlinks (lines 143-147). */
  const LinkKeys: seq<RowKey> := [UiLink, DescriptionLink, AdditionalInfoLink]

  /** `cols.findIndex(c => c.key === key)`: the first column showing `key`, or -1. */
  function FindColumn(cols: seq<Column>, key: RowKey): (i: int)
    ensures -1 <= i < |cols|
    ensures i == -1 <==> forall c :: 0 <= c < |cols| ==> cols[c].key != key
    ensures 0 <= i ==> cols[i].key == key && forall c :: 0 <= c < i ==> cols[c].key != key
  {
    if cols == [] then -1
    else if cols[0].key == key then 0
    else
      var j := FindColumn(cols[1..], key);
      assert forall c :: 1 <= c < |cols| ==> cols[c] == cols[1..][c - 1];
      if j == -1 then -1 else j + 1
  }

  predicate KeysDistinct(cols: seq<Column>)
  {
    forall i, j :: 0 <= i < j < |cols| ==> cols[i].key != cols[j].key
  }

  /** Position of a key in the declaration of `RowKey`. */
  function KeyOrdinal(key: RowKey): nat
  {
    match key
    case NoticeId => 0 case Title => 1 case SolicitationNumber => 2 case PostedDate => 3
    case ResponseDeadLine => 4 case ArchiveDate => 5 case Active => 6 case NoticeType => 7
    case TypeOfSetAsideDescription => 8 case TypeOfSetAside => 9 case NaicsCode => 10
    case NaicsCodes => 11 case ClassificationCode => 12 case FullParentPathName => 13
    case FullParentPathCode => 14 case OfficeCity => 15 case OfficeState => 16 case OfficeZip => 17
    case OfficeCountry => 18 case PocEmail => 19 case PocFullName => 20 case PocPhone => 21
    case PocFax => 22 case UiLink => 23 case DescriptionLink => 24 case AdditionalInfoLink => 25
    case ResourceLinks => 26
  }

  /** `cols.map(c => c.key)`. */
  function KeysOf(cols: seq<Column>): (keys: seq<RowKey>)
    ensures |keys| == |cols| && forall c :: 0 <= c < |cols| ==> keys[c] == cols[c].key
  {
    seq(|cols|, c requires 0 <= c < |cols| => cols[c].key)
  }

  /** Every row key once, in the order `RowKey` declares them. */
  const AllKeys: seq<RowKey> := [
    NoticeId, Title, SolicitationNumber, PostedDate, ResponseDeadLine, ArchiveDate, Active,
    NoticeType, TypeOfSetAsideDescription, TypeOfSetAside,
    NaicsCode, NaicsCodes, ClassificationCode,
    FullParentPathName, FullParentPathCode,
    OfficeCity, OfficeState, OfficeZip, OfficeCountry,
    PocEmail, PocFullName, PocPhone, PocFax,
    UiLink, DescriptionLink, AdditionalInfoLink,
    ResourceLinks]

  /** The schema shows the row keys in declaration order. */
  lemma SchemaKeys()
    ensures KeysOf(Columns) == AllKeys
  {
    var keys := KeysOf(Columns);
    forall c | 0 <= c < 27 ensures keys[c] == AllKeys[c] {
      assert keys[c] == Columns[c].key;
    }
  }

  /** The `i`-th declared key has ordinal `i`. */
  lemma AllKeysOrdinal()
    ensures forall i :: 0 <= i < |AllKeys| ==> KeyOrdinal(AllKeys[i]) == i
  {
  }

  /** The schema's keys are pairwise distinct: it lists every row key once, in declaration order. */
  lemma SchemaKeysDistinct()
    ensures |Columns| == 27
    ensures forall c :: 0 <= c < |Columns| ==> KeyOrdinal(Columns[c].key) == c
    ensures KeysDistinct(Columns)
  {
    SchemaKeys();
    AllKeysOrdinal();
    var keys := KeysOf(Columns);
    assert |keys| == 27;
    forall c | 0 <= c < |Columns| ensures KeyOrdinal(Columns[c].key) == c {
      assert Columns[c].key == keys[c] == AllKeys[c];
    }
  }

  /** With distinct keys, `findIndex` finds every column by its own key. */
  lemma FindOwnColumn(cols: seq<Column>, c: nat)
    requires KeysDistinct(cols) && c < |cols|
    ensures FindColumn(cols, cols[c].key) == c
  {
    assert FindColumn(cols, cols[c].key) != -1;
  }

  /** Every schema column is the one `findIndex` finds for its own key. */
  lemma SchemaFindsEveryKey()
    ensures forall c :: 0 <= c < |Columns| ==> FindColumn(Columns, Columns[c].key) == c
  {
    SchemaKeysDistinct();
    forall c | 0 <= c < |Columns| ensures FindColumn(Columns, Columns[c].key) == c {
      FindOwnColumn(Columns, c);
    }
  }

  lemma KeyOrdinalInjective(a: RowKey, b: RowKey)
    requires KeyOrdinal(a) == KeyOrdinal(b)
    ensures a == b
  {
  }

  /** Every row key has a column, at the key's position in `RowKey`. In particular the columns
      looked up by `addOpportunitiesSheet` are found, so neither the link guard (line 151) nor the
      wrap guard (line 164) ever skips. */
  lemma SchemaFindsAllKeys()
    ensures forall k :: FindColumn(Columns, k) == KeyOrdinal(k)
  {
    SchemaKeysDistinct();
    SchemaFindsEveryKey();
    forall k ensures FindColumn(Columns, k) == KeyOrdinal(k) {
      var c := KeyOrdinal(k);
      KeyOrdinalInjective(Columns[c].key, k);
    }
  }

  // ---- cells ------------------------------------------------------------------------------------------

  /** A cell's value: a string, or a hyperlink object with its visible text and target. */
  datatype CellValue = Str(text: string) | Link(text: string, hyperlink: string)

  /** A cell: its value and whether its alignment wraps text. */
  datatype Cell = Cell(value: CellValue, wrapText: bool)

  /** What line 156 reads from a cell: a string value as it is, any other value through
      `String(...)`, which turns a hyperlink object into "[object Object]". */
  function CellText(v: CellValue): (text: string)
    ensures v.Str? ==> text == v.text
    ensures v.Link? ==> text == "[object Object]"
  {
    match v
    case Str(text) => text
    case Link(_, _) => "[object Object]"
  }

  /** The value `setHyperlink(cell, url)` stores (lines 39-45): a hyperlink whose text and
      target are both `url` exactly when `url` starts with `http`, otherwise `url` as a string. */
  function HyperlinkValue(url: string): (v: CellValue)
    ensures v.Link? <==> |url| >= 4 && url[..4] == "http"
    ensures v.Link? ==> v == Link(url, url)
    ensures v.Str? ==> v == Str(url)
  {
    if StartsWith(url, "http") then Link(url, url) else Str(url)
  }

  /** One link-column cell after lines 154-157 ran on it. The `if (url)` guard only skips the
      empty string, which `setHyperlink` would store unchanged anyway, so a string cell ends up
      holding `setHyperlink`'s value and a hyperlink cell the string "[object Object]". The
      alignment is kept. */
  function LinkedCell(cell: Cell): (linked: Cell)
    ensures cell.value.Str? ==> linked == Cell(HyperlinkValue(cell.value.text), cell.wrapText)
    ensures cell.value.Link? ==> linked == Cell(Str("[object Object]"), cell.wrapText)
  {
    var url := CellText(cell.value);
    assert cell.value.Link? ==> url[0] == '[' && !StartsWith(url, "http");
    if url != "" then cell.(value := HyperlinkValue(url)) else cell
  }

  /** On a string cell the link pass makes a hyperlink, with the value as both text and target,
      exactly of the values that start with `http`; every other string stays as it is. */
  lemma LinkedStringCell(v: string, wrap: bool)
    ensures LinkedCell(Cell(Str(v), wrap)) ==
              Cell(if StartsWith(v, "http") then Link(v, v) else Str(v), wrap)
    ensures LinkedCell(Cell(Str(v), wrap)).value.Link? <==> |v| >= 4 && v[..4] == "http"
  {
  }

  /** The link pass is right only once: run again, every cell it turned into a hyperlink would
      hold the string "[object Object]", and every other cell would stay as the first run left it. */
  lemma LinkedCellTwice(v: string, wrap: bool)
    ensures var once := LinkedCell(Cell(Str(v), wrap));
      LinkedCell(once) == if once.value.Link? then Cell(Str("[object Object]"), wrap) else once
  {
  }

  /** Row 1 as `ws.columns = cols` writes it: each column's header as a string. */
  function HeaderRow(cols: seq<Column>): (cells: seq<Cell>)
    ensures |cells| == |cols|
  {
    seq(|cols|, c requires 0 <= c < |cols| => Cell(Str(cols[c].header), false))
  }

  /** The row `ws.addRow(row)` appends: each column's cell holds the row's value under its key. */
  function PlainRow(cols: seq<Column>, row: OpportunityRow): (cells: seq<Cell>)
    ensures |cells| == |cols|
  {
    seq(|cols|, c requires 0 <= c < |cols| => Cell(Str(Field(row, cols[c].key)), false))
  }

  // ---- the finished sheet, declaratively ---------------------------------------------------------------

  /** The cell a finished sheet holds for value `v` in column `col`: a hyperlink in a link column
      when `v` starts with `http`, the string `v` otherwise; wrapped exactly in the resource-links column. */
  function FinalCell(col: Column, v: string): Cell
  {
    Cell(if col.key in LinkKeys && StartsWith(v, "http") then Link(v, v) else Str(v),
         col.key == ResourceLinks)
  }

  /** The data row a finished sheet with columns `cols` holds for one flattened opportunity. */
  function DataRow(cols: seq<Column>, row: OpportunityRow): (cells: seq<Cell>)
    ensures |cells| == |cols|
  {
    seq(|cols|, c requires 0 <= c < |cols| => FinalCell(cols[c], Field(row, cols[c].key)))
  }

  /** The rows of a finished sheet with columns `cols`: the header, then one data row per
      opportunity in input order. */
  function SheetRows(cols: seq<Column>, opps: seq<Opportunity>): (rows: seq<seq<Cell>>)
    ensures |rows| == |opps| + 1
    ensures rows[0] == HeaderRow(cols)
    ensures forall i :: 0 <= i < |opps| ==> rows[i + 1] == DataRow(cols, FlattenOpportunity(opps[i]))
  {
    [HeaderRow(cols)] + seq(|opps|, i requires 0 <= i < |opps| => DataRow(cols, FlattenOpportunity(opps[i])))
  }

  /** In a finished sheet, the three link columns of every data row hold a hyperlink with text
      and target both equal to the flattened value exactly when it starts with `http`, and the
      value as a string otherwise; every other column holds its flattened value as a string; only
      the resource-links cell wraps. */
  lemma SheetCells(opps: seq<Opportunity>, i: nat, c: nat)
    requires i < |opps| && c < |Columns|
    ensures var v := Field(FlattenOpportunity(opps[i]), Columns[c].key);
      var cell := SheetRows(Columns, opps)[i + 1][c];
      && (Columns[c].key in LinkKeys && StartsWith(v, "http") ==> cell.value == Link(v, v))
      && (Columns[c].key !in LinkKeys || !StartsWith(v, "http") ==> cell.value == Str(v))
      && (cell.wrapText <==> c == 26)
  {
    SchemaKeysDistinct();
    assert Columns[26].key == ResourceLinks;
  }

  // ---- worksheets and workbooks --------------------------------------------------------------------------

  /** A worksheet: its name, its columns, its rows of cells (row 1 first), whether row 1 is bold,
      and how many rows are frozen at the top. */
  class Worksheet {
    const name: string
    var columns: seq<Column>
    var rows: seq<seq<Cell>>
    var headerBold: bool
    var frozenRows: nat

    constructor (name: string)
      ensures this.name == name && columns == [] && rows == [] && !headerBold && frozenRows == 0
    {
      this.name := name;
      columns := [];
      rows := [];
      headerBold := false;
      frozenRows := 0;
    }

    /** `ws.rowCount`. */
    function RowCount(): nat
      reads this
    {
      |rows|
    }

    /** `ws.columns = cols`: the columns, with their headers written into row 1. */
    method SetColumns(cols: seq<Column>)
      modifies this
      ensures columns == cols
      ensures rows == [HeaderRow(cols)] + if old(rows) == [] then [] else old(rows)[1..]
      ensures headerBold == old(headerBold) && frozenRows == old(frozenRows)
    {
      columns := cols;
      rows := [HeaderRow(cols)] + if rows == [] then [] else rows[1..];
    }

    /** `ws.addRow(row)`. */
    method AddRow(row: OpportunityRow)
      modifies this
      ensures rows == old(rows) + [PlainRow(columns, row)]
      ensures columns == old(columns) && headerBold == old(headerBold) && frozenRows == old(frozenRows)
    {
      rows := rows + [PlainRow(columns, row)];
    }

    /** Stores `cell` at row `r`, column `c` (both counted from 1, as `ws.getCell(r, c)` does). */
    method SetCell(r: nat, c: nat, cell: Cell)
      requires 1 <= r <= |rows| && 1 <= c <= |rows[r - 1]|
      modifies this
      ensures rows == old(rows)[r - 1 := old(rows)[r - 1][c - 1 := cell]]
      ensures columns == old(columns) && headerBold == old(headerBold) && frozenRows == old(frozenRows)
    {
      rows := rows[r - 1 := rows[r - 1][c - 1 := cell]];
    }
  }

  /** A workbook: its metadata and its worksheets in the order they were added. */
  class Workbook {
    var creator: Option<string>
    var created: Option<Helpers.Date>
    var worksheets: seq<Worksheet>

    constructor ()
      ensures creator == None && created == None && worksheets == []
    {
      creator := None;
      created := None;
      worksheets := [];
    }

    /** `wb.addWorksheet(name)`: a new empty worksheet, appended. */
    method AddWorksheet(name: string) returns (ws: Worksheet)
      modifies this
      ensures fresh(ws) && ws.name == name && ws.columns == [] && ws.rows == []
      ensures !ws.headerBold && ws.frozenRows == 0
      ensures worksheets == old(worksheets) + [ws]
      ensures creator == old(creator) && created == old(created)
    {
      ws := new Worksheet(name);
      worksheets := worksheets + [ws];
    }
  }

  // ---- addOpportunitiesSheet -------------------------------------------------------------------------------

  /** Lines 153-158: every data row's cell in column `colIndex` (counted from 1) goes through the
      link pass; row 1 and every other cell stay as they are. */
  method HyperlinkColumn(ws: Worksheet, colIndex: nat)
    requires 1 <= colIndex
    requires forall r :: 1 <= r < |ws.rows| ==> colIndex <= |ws.rows[r]|
    modifies ws
    ensures |ws.rows| == |old(ws.rows)|
    ensures |ws.rows| > 0 ==> ws.rows[0] == old(ws.rows[0])
    ensures forall r :: 1 <= r < |ws.rows| ==>
              ws.rows[r] == old(ws.rows[r])[colIndex - 1 := LinkedCell(old(ws.rows[r][colIndex - 1]))]
    ensures ws.columns == old(ws.columns) && ws.headerBold == old(ws.headerBold)
    ensures ws.frozenRows == old(ws.frozenRows)
  {
    var r := 2;
    while r <= ws.RowCount()
      invariant 2 <= r <= |ws.rows| + 2
      invariant |ws.rows| == |old(ws.rows)|
      invariant |ws.rows| > 0 ==> ws.rows[0] == old(ws.rows[0])
      invariant forall k :: 1 <= k < |ws.rows| ==>
                  ws.rows[k] == if k + 1 < r
                                then old(ws.rows[k])[colIndex - 1 := LinkedCell(old(ws.rows[k][colIndex - 1]))]
                                else old(ws.rows[k])
      invariant ws.columns == old(ws.columns) && ws.headerBold == old(ws.headerBold)
      invariant ws.frozenRows == old(ws.frozenRows)
      decreases |ws.rows| + 2 - r
    {
      var cell := ws.rows[r - 1][colIndex - 1];
      var url := CellText(cell.value);
      assert LinkedCell(cell) == if url != "" then cell.(value := HyperlinkValue(url)) else cell;
      if url != "" {
        ws.SetCell(r, colIndex, cell.(value := HyperlinkValue(url)));
      }
      r := r + 1;
    }
  }

  /** A column that the link pass over `keys` rewrites: it shows one of `keys` and is the first
      column showing it. */
  predicate Linked(cols: seq<Column>, keys: seq<RowKey>, c: nat)
    requires c < |cols|
  {
    cols[c].key in keys && FindColumn(cols, cols[c].key) == c
  }

  /** A data row after the link pass over `keys`: the cells of the linked columns go through
      `LinkedCell`, the others stay. */
  function LinkRow(cols: seq<Column>, keys: seq<RowKey>, row: seq<Cell>): (linked: seq<Cell>)
    requires |row| == |cols|
    ensures |linked| == |cols|
  {
    seq(|cols|, c requires 0 <= c < |cols| => if Linked(cols, keys, c) then LinkedCell(row[c]) else row[c])
  }

  /** Lines 149-159: for each key of `keys`, the column `findIndex` finds for it (skipped when
      there is none) goes through the link pass. */
  method HyperlinkColumns(ws: Worksheet, cols: seq<Column>, keys: seq<RowKey>)
    requires forall i, j :: 0 <= i < j < |keys| ==> keys[i] != keys[j]
    requires forall r :: 1 <= r < |ws.rows| ==> |ws.rows[r]| == |cols|
    modifies ws
    ensures |ws.rows| == |old(ws.rows)|
    ensures |ws.rows| > 0 ==> ws.rows[0] == old(ws.rows[0])
    ensures forall r :: 1 <= r < |ws.rows| ==> ws.rows[r] == LinkRow(cols, keys, old(ws.rows[r]))
    ensures ws.columns == old(ws.columns) && ws.headerBold == old(ws.headerBold)
    ensures ws.frozenRows == old(ws.frozenRows)
  {
    for j := 0 to |keys|
      invariant |ws.rows| == |old(ws.rows)|
      invariant |ws.rows| > 0 ==> ws.rows[0] == old(ws.rows[0])
      invariant forall r :: 1 <= r < |ws.rows| ==> |ws.rows[r]| == |cols|
      invariant forall r, c :: 1 <= r < |ws.rows| && 0 <= c < |cols| ==>
                  ws.rows[r][c] == if Linked(cols, keys[..j], c) then LinkedCell(old(ws.rows[r][c])) else old(ws.rows[r][c])
      invariant ws.columns == old(ws.columns) && ws.headerBold == old(ws.headerBold)
      invariant ws.frozenRows == old(ws.frozenRows)
    {
      assert keys[..j + 1] == keys[..j] + [keys[j]];
      var colIndex := FindColumn(cols, keys[j]) + 1;
      if colIndex <= 0 {
        forall r, c | 1 <= r < |ws.rows| && 0 <= c < |cols|
          ensures ws.rows[r][c] == if Linked(cols, keys[..j + 1], c) then LinkedCell(old(ws.rows[r][c])) else old(ws.rows[r][c])
        {
          assert cols[c].key != keys[j];
          assert Linked(cols, keys[..j + 1], c) == Linked(cols, keys[..j], c);
        }
        continue;
      }
      assert keys[j] !in keys[..j];
      ghost var before := ws.rows;
      HyperlinkColumn(ws, colIndex);
      forall r, c | 1 <= r < |ws.rows| && 0 <= c < |cols|
        ensures ws.rows[r][c] == if Linked(cols, keys[..j + 1], c) then LinkedCell(old(ws.rows[r][c])) else old(ws.rows[r][c])
      {
        assert ws.rows[r] == before[r][colIndex - 1 := LinkedCell(before[r][colIndex - 1])];
        assert before[r][c] == if Linked(cols, keys[..j], c) then LinkedCell(old(ws.rows[r][c])) else old(ws.rows[r][c]);
        if c == colIndex - 1 {
          assert !Linked(cols, keys[..j], c) && Linked(cols, keys[..j + 1], c);
        } else {
          assert Linked(cols, keys[..j + 1], c) == Linked(cols, keys[..j], c);
        }
      }
    }
    assert keys[..|keys|] == keys;
    forall r | 1 <= r < |ws.rows| ensures ws.rows[r] == LinkRow(cols, keys, old(ws.rows[r])) {
      assert forall c :: 0 <= c < |cols| ==> ws.rows[r][c] == LinkRow(cols, keys, old(ws.rows[r]))[c];
    }
  }

  /** A data row after the wrap pass for `key`: the cell of the column found for `key` wraps its
      text, the others stay. */
  function WrapRow(cols: seq<Column>, key: RowKey, row: seq<Cell>): (wrapped: seq<Cell>)
    requires |row| == |cols|
    ensures |wrapped| == |cols|
  {
    seq(|cols|, c requires 0 <= c < |cols| => if FindColumn(cols, key) == c then row[c].(wrapText := true) else row[c])
  }

  /** Lines 161-168: every data row's cell in the column `findIndex` finds for `key` wraps its
      text; when there is no such column nothing changes. */
  method WrapColumn(ws: Worksheet, cols: seq<Column>, key: RowKey)
    requires forall r :: 1 <= r < |ws.rows| ==> |ws.rows[r]| == |cols|
    modifies ws
    ensures |ws.rows| == |old(ws.rows)|
    ensures |ws.rows| > 0 ==> ws.rows[0] == old(ws.rows[0])
    ensures forall r :: 1 <= r < |ws.rows| ==> ws.rows[r] == WrapRow(cols, key, old(ws.rows[r]))
    ensures ws.columns == old(ws.columns) && ws.headerBold == old(ws.headerBold)
    ensures ws.frozenRows == old(ws.frozenRows)
  {
    var colIndex := FindColumn(cols, key) + 1;
    if colIndex > 0 {
      var r := 2;
      while r <= ws.RowCount()
        invariant 2 <= r <= |ws.rows| + 2
        invariant |ws.rows| == |old(ws.rows)|
        invariant |ws.rows| > 0 ==> ws.rows[0] == old(ws.rows[0])
        invariant forall k :: 1 <= k < |ws.rows| ==>
                    ws.rows[k] == if k + 1 < r
                                  then old(ws.rows[k])[colIndex - 1 := old(ws.rows[k][colIndex - 1]).(wrapText := true)]
                                  else old(ws.rows[k])
        invariant ws.columns == old(ws.columns) && ws.headerBold == old(ws.headerBold)
        invariant ws.frozenRows == old(ws.frozenRows)
        decreases |ws.rows| + 2 - r
      {
        var cell := ws.rows[r - 1][colIndex - 1];
        ws.SetCell(r, colIndex, cell.(wrapText := true));
        r := r + 1;
      }
    }
  }

  /** For a schema whose keys are distinct, the link pass over `LinkKeys` followed by the wrap pass
      over the resource-links column turns each freshly added data cell into the finished cell. */
  lemma FinishedCell(cols: seq<Column>, row: OpportunityRow, c: nat)
    requires KeysDistinct(cols) && c < |cols|
    ensures var plain := PlainRow(cols, row)[c];
      var linked := if Linked(cols, LinkKeys, c) then LinkedCell(plain) else plain;
      DataRow(cols, row)[c] == if FindColumn(cols, ResourceLinks) == c then linked.(wrapText := true) else linked
  {
    FindOwnColumn(cols, c);
    assert Linked(cols, LinkKeys, c) <==> cols[c].key in LinkKeys;
    assert FindColumn(cols, ResourceLinks) == c <==> cols[c].key == ResourceLinks;
    LinkedStringCell(Field(row, cols[c].key), false);
  }

  /** A row built by `addRow`, put through the link pass and then the wrap pass, is the finished
      data row. */
  lemma FinishedRow(cols: seq<Column>, row: OpportunityRow)
    requires KeysDistinct(cols)
    ensures WrapRow(cols, ResourceLinks, LinkRow(cols, LinkKeys, PlainRow(cols, row))) == DataRow(cols, row)
  {
    var linked := LinkRow(cols, LinkKeys, PlainRow(cols, row));
    forall c | 0 <= c < |cols|
      ensures WrapRow(cols, ResourceLinks, linked)[c] == DataRow(cols, row)[c]
    {
      FinishedCell(cols, row, c);
    }
  }

  /** A worksheet as `addOpportunitiesSheet(wb, name, opps)` leaves it: the schema's columns, a bold
      header in row 1 with exactly one frozen row, then the finished data rows. */
  predicate BuiltFrom(ws: Worksheet, name: string, opps: seq<Opportunity>)
    reads ws
  {
    && ws.name == name
    && ws.columns == Columns
    && ws.headerBold
    && ws.frozenRows == 1
    && ws.rows == SheetRows(Columns, opps)
  }

  /** The rows of a sheet with columns `cols` before the link and wrap passes: the header, then the
      row `addRow` appends for each opportunity, in input order. */
  function PlainSheet(cols: seq<Column>, opps: seq<Opportunity>): (rows: seq<seq<Cell>>)
    ensures |rows| == |opps| + 1
    ensures rows[0] == HeaderRow(cols)
    ensures forall i :: 0 <= i < |opps| ==> rows[i + 1] == PlainRow(cols, FlattenOpportunity(opps[i]))
  {
    var body := seq(|opps|, i requires 0 <= i < |opps| => PlainRow(cols, FlattenOpportunity(opps[i])));
    assert forall i :: 0 <= i < |opps| ==> body[i] == PlainRow(cols, FlattenOpportunity(opps[i]));
    [HeaderRow(cols)] + body
  }

  /** One more opportunity adds its plain row at the end. */
  lemma PlainSheetAppend(cols: seq<Column>, opps: seq<Opportunity>, opp: Opportunity)
    ensures PlainSheet(cols, opps + [opp]) == PlainSheet(cols, opps) + [PlainRow(cols, FlattenOpportunity(opp))]
  {
    var longer, shorter := PlainSheet(cols, opps + [opp]), PlainSheet(cols, opps);
    assert forall i :: 0 <= i < |opps| ==> (opps + [opp])[i] == opps[i];
    assert forall r :: 1 <= r <= |opps| ==> longer[r] == shorter[r];
  }

  /** Lines 98-140: one row appended per opportunity, in input order, below the header. */
  method AddPlainRows(ws: Worksheet, opps: seq<Opportunity>)
    requires ws.rows == [HeaderRow(ws.columns)]
    modifies ws
    ensures ws.rows == PlainSheet(ws.columns, opps)
    ensures ws.columns == old(ws.columns) && ws.headerBold == old(ws.headerBold)
    ensures ws.frozenRows == old(ws.frozenRows)
  {
    for k := 0 to |opps|
      invariant ws.columns == old(ws.columns) && ws.headerBold == old(ws.headerBold)
      invariant ws.frozenRows == old(ws.frozenRows)
      invariant ws.rows == PlainSheet(ws.columns, opps[..k])
    {
      ws.AddRow(FlattenOpportunity(opps[k]));
      assert opps[..k + 1] == opps[..k] + [opps[k]];
      PlainSheetAppend(ws.columns, opps[..k], opps[k]);
    }
    assert opps[..|opps|] == opps;
  }

  /** Lines 91-168 on a fresh worksheet, for a schema `cols` whose keys are distinct: set the
      columns, make the header bold and frozen, add one row per opportunity, then run the link
      pass and the wrap pass. The worksheet ends up holding exactly the finished sheet. */
  method LayOutSheet(ws: Worksheet, cols: seq<Column>, opps: seq<Opportunity>)
    requires KeysDistinct(cols) && ws.rows == []
    modifies ws
    ensures ws.columns == cols && ws.headerBold && ws.frozenRows == 1
    ensures ws.rows == SheetRows(cols, opps)
  {
    ws.SetColumns(cols);
    ws.headerBold := true;
    ws.frozenRows := 1;
    AddPlainRows(ws, opps);
    ghost var plain := ws.rows;
    HyperlinkColumns(ws, cols, LinkKeys);
    WrapColumn(ws, cols, ResourceLinks);
    ghost var sheet := SheetRows(cols, opps);
    forall r | 1 <= r < |ws.rows| ensures ws.rows[r] == sheet[r] {
      FinishedRow(cols, FlattenOpportunity(opps[r - 1]));
    }
  }

  /** `addOpportunitiesSheet(wb, sheetName, opps)`: appends one new worksheet to `wb` holding the
      header and one row per opportunity in input order, with the link columns hyperlinked and the
      resource links wrapped. The worksheets already in `wb` are left as they are. */
  method AddOpportunitiesSheet(wb: Workbook, sheetName: string, opps: seq<Opportunity>)
    modifies wb
    ensures |wb.worksheets| == |old(wb.worksheets)| + 1
    ensures wb.worksheets[..|old(wb.worksheets)|] == old(wb.worksheets)
    ensures var ws := wb.worksheets[|wb.worksheets| - 1]; fresh(ws) && BuiltFrom(ws, sheetName, opps)
    ensures wb.creator == old(wb.creator) && wb.created == old(wb.created)
  {
    var ws := wb.AddWorksheet(sheetName);
    SchemaKeysDistinct();
    LayOutSheet(ws, Columns, opps);
  }

  /** One labelled list of opportunities. */
  datatype SheetData = SheetData(name: string, data: seq<Opportunity>)

  /** The workbook `samResponseToXlsxBuffer(sheets)` encodes: creator "Tepnology LLC", created at
      `now`, and one worksheet per input sheet, in input order, each built from that sheet's data. */
  method SamResponseToWorkbook(sheets: seq<SheetData>, now: Helpers.Date) returns (wb: Workbook)
    ensures fresh(wb) && wb.creator == Some("Tepnology LLC") && wb.created == Some(now)
    ensures |wb.worksheets| == |sheets|
    ensures forall i :: 0 <= i < |sheets| ==>
              fresh(wb.worksheets[i]) && BuiltFrom(wb.worksheets[i], sheets[i].name, sheets[i].data)
    ensures forall i, j :: 0 <= i < j < |sheets| ==> wb.worksheets[i] != wb.worksheets[j]
  {
    wb := new Workbook();
    wb.creator := Some("Tepnology LLC");
    wb.created := Some(now);
    for i := 0 to |sheets|
      invariant wb.creator == Some("Tepnology LLC") && wb.created == Some(now)
      invariant |wb.worksheets| == i
      invariant forall k :: 0 <= k < i ==>
                  fresh(wb.worksheets[k]) && BuiltFrom(wb.worksheets[k], sheets[k].name, sheets[k].data)
      invariant forall k, l :: 0 <= k < l < i ==> wb.worksheets[k] != wb.worksheets[l]
    {
      AddOpportunitiesSheet(wb, sheets[i].name, sheets[i].data);
    }
  }
}
