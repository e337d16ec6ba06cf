/**
 * The backend's request handling: the bearer-header check, the category
 * whitelist and file-name check, the spreadsheet header classification and
 * row extraction of an upload, the per-user upload flags, delete-all and
 * the export sheet. The database is a sequence of rows and the parsed
 * workbook a sequence of rows of cells; token decoding and the user lookup
 * are parameters.
 */
module Api {
  import opened Text

  /** A handler's result: its value, or the `HTTPException` it raises. */
  datatype Outcome<T> = Success(value: T) | Failure(status: int, detail: string)

  // ---------------------------------------------------------------------
  // Authentication header
  // ---------------------------------------------------------------------

  /** `"Bearer " + rest` splits on spaces into `"Bearer"` followed by the pieces of `rest`. */
  lemma BearerSplit(h: string)
    requires StartsWith(h, "Bearer ")
    ensures |Split(h, ' ')| >= 2 && Split(h, ' ')[1] == Split(h[7..], ' ')[0]
  {
    assert h == "Bearer" + [' '] + h[7..];
    SplitAround("Bearer", h[7..], ' ');
    SplitNoSeparator("Bearer", ' ');
  }

  /**
   * The token of an `Authorization` header: 401 when it is missing or does
   * not start with `"Bearer "`, else the second space-separated field.
   */
  function BearerToken(authorization: Option<string>): (r: Outcome<string>)
    ensures r.Failure? <==> authorization.None? || !StartsWith(authorization.value, "Bearer ")
    ensures r.Failure? ==> r == Failure(401, "Not authenticated")
    ensures r.Success? ==> ' ' !in r.value && r.value == Split(authorization.value[7..], ' ')[0]
  {
    if authorization.None? || authorization.value == "" || !StartsWith(authorization.value, "Bearer ") then
      Failure(401, "Not authenticated")
    else
      BearerSplit(authorization.value);
      Success(Split(authorization.value, ' ')[1])
  }

  /** A token without spaces comes back from its header unchanged. */
  lemma BearerRoundTrip(token: string)
    requires ' ' !in token
    ensures BearerToken(Some("Bearer " + token)) == Success(token)
  {
    var h := "Bearer " + token;
    assert h[..7] == "Bearer ";
    assert h[7..] == token;
    SplitNoSeparator(token, ' ');
  }

  /** Only the first space-separated field after `"Bearer "` is the token. */
  lemma BearerIgnoresTrailingFields(token: string, rest: string)
    requires ' ' !in token
    ensures BearerToken(Some("Bearer " + token + " " + rest)) == Success(token)
  {
    var h := "Bearer " + token + " " + rest;
    assert h[..7] == "Bearer ";
    assert h[7..] == token + [' '] + rest;
    SplitAround(token, rest, ' ');
    SplitNoSeparator(token, ' ');
  }

  /**
   * `get_current_user`: the header's token, then the decoded payload's
   * subject (`decode` yields `None` for an unusable token and the `sub`
   * claim otherwise), then the user with that name; each failure is a 401.
   */
  function CurrentUser(authorization: Option<string>, decode: string -> Option<Option<string>>,
                       findUser: string -> Option<int>): (r: Outcome<int>)
    ensures r.Failure? ==> r.status == 401
    ensures r.Success? ==>
      && BearerToken(authorization).Success?
      && decode(BearerToken(authorization).value).Some?
      && decode(BearerToken(authorization).value).value.Some?
      && findUser(decode(BearerToken(authorization).value).value.value) == Some(r.value)
    ensures BearerToken(authorization).Failure? ==> r == Failure(401, "Not authenticated")
    ensures BearerToken(authorization).Success? ==>
      var payload := decode(BearerToken(authorization).value);
      && (payload.None? ==> r == Failure(401, "Invalid or expired token"))
      && (payload == Some(None) ==> r == Failure(401, "User not found"))
      && (payload.Some? && payload.value.Some? ==>
            r == match findUser(payload.value.value)
                 case None => Failure(401, "User not found")
                 case Some(user) => Success(user))
  {
    match BearerToken(authorization)
    case Failure(status, detail) => Failure(status, detail)
    case Success(token) =>
      match decode(token)
      case None => Failure(401, "Invalid or expired token")
      case Some(sub) =>
        if sub.None? then Failure(401, "User not found")
        else
          match findUser(sub.value)
          case None => Failure(401, "User not found")
          case Some(user) => Success(user)
  }

  // ---------------------------------------------------------------------
  // Request checks
  // ---------------------------------------------------------------------

  /** `category in ("2nd_year", "3rd_year")` */
  predicate ValidCategory(category: string)
  {
    category == "2nd_year" || category == "3rd_year"
  }

  /** `filename.endswith((".xlsx", ".xls"))`, case-sensitive. */
  predicate AllowedFilename(filename: string)
  {
    EndsWith(filename, ".xlsx") || EndsWith(filename, ".xls")
  }

  /** An upper-case extension is refused: the test is case-sensitive. */
  lemma UpperCaseExtensionRefused(stem: string)
    ensures !AllowedFilename(stem + ".XLSX") && !AllowedFilename(stem + ".XLS")
  {
    var a, b := stem + ".XLSX", stem + ".XLS";
    assert a[|a| - 1] == 'X' && b[|b| - 1] == 'S';
    assert !EndsWith(a, ".xlsx") by { assert a[|a| - 5..][4] == 'X'; }
    assert !EndsWith(a, ".xls") by { assert a[|a| - 4..][3] == 'X'; }
    assert !EndsWith(b, ".xlsx") by { assert |b| >= 5 ==> b[|b| - 5..][4] == 'S'; }
    assert !EndsWith(b, ".xls") by { assert b[|b| - 4..][3] == 'S'; }
  }

  /** Both lower-case extensions are accepted. */
  lemma LowerCaseExtensionAccepted(stem: string)
    ensures AllowedFilename(stem + ".xlsx") && AllowedFilename(stem + ".xls")
  {
    var a, b := stem + ".xlsx", stem + ".xls";
    assert a[|a| - 5..] == ".xlsx";
    assert b[|b| - 4..] == ".xls";
  }

  // ---------------------------------------------------------------------
  // Spreadsheet cells and header classification
  // ---------------------------------------------------------------------

  /** A cell's value: empty, text or a whole number. */
  datatype Cell = Blank | Str(s: string) | Int(n: int)

  /** Python truthiness of `cell.value`. */
  predicate Truthy(c: Cell)
  {
    match c
    case Blank => false
    case Str(s) => s != ""
    case Int(n) => n != 0
  }

  /** `str(cell.value)` for a value that is present. */
  function CellText(c: Cell): string
    requires !c.Blank?
  {
    match c
    case Str(s) => s
    case Int(n) => IntText(n)
  }

  /** `row[col - 1].value`, rows being as wide as the widest row (missing cells are empty). */
  function CellAt(row: seq<Cell>, col: nat): Cell
  {
    if 1 <= col <= |row| then row[col - 1] else Blank
  }

  datatype Field = NameField | RollField | LeetcodeField | HackerrankField

  /** The stripped, lower-cased text of a header cell that is present. */
  function HeaderText(c: Cell): string
    requires Truthy(c)
  {
    Lower(Strip(CellText(c)))
  }

  /**
   * The field a header cell names, first match: name (without "roll"),
   * roll, leetcode, hacker(rank).
   */
  function HeaderField(c: Cell): Option<Field>
  {
    if !Truthy(c) then None
    else
      var h := HeaderText(c);
      if Contains(h, "name") && !Contains(h, "roll") then Some(NameField)
      else if Contains(h, "roll") then Some(RollField)
      else if Contains(h, "leetcode") then Some(LeetcodeField)
      else if Contains(h, "hackerrank") || Contains(h, "hacker") then Some(HackerrankField)
      else None
  }

  /** The field of each header cell, in column order. */
  function Fields(header: seq<Cell>): (fields: seq<Option<Field>>)
    ensures |fields| == |header|
  {
    if header == [] then [] else Fields(header[..|header| - 1]) + [HeaderField(header[|header| - 1])]
  }

  lemma {:induction false} FieldsAt(header: seq<Cell>, k: nat)
    requires k < |header|
    ensures Fields(header)[k] == HeaderField(header[k])
  {
    if k < |header| - 1 {
      FieldsAt(header[..|header| - 1], k);
    }
  }

  /** The 1-based column of the last entry naming `f`. */
  function LastColumn(fields: seq<Option<Field>>, f: Field): (col: Option<nat>)
    ensures col.Some? ==> 1 <= col.value <= |fields| && fields[col.value - 1] == Some(f)
  {
    if fields == [] then None
    else if fields[|fields| - 1] == Some(f) then Some(|fields|)
    else LastColumn(fields[..|fields| - 1], f)
  }

  /**
   * A later column naming the same field wins: the column found is the
   * last one naming `f`, and none is found exactly when no entry names it.
   */
  lemma {:induction false} LastColumnSpec(fields: seq<Option<Field>>, f: Field)
    ensures LastColumn(fields, f).None? <==> forall k :: 0 <= k < |fields| ==> fields[k] != Some(f)
    ensures LastColumn(fields, f).Some? ==>
      forall k :: LastColumn(fields, f).value <= k < |fields| ==> fields[k] != Some(f)
  {
    if fields != [] {
      var init := fields[..|fields| - 1];
      LastColumnSpec(init, f);
      assert forall k :: 0 <= k < |init| ==> fields[k] == init[k];
    }
  }

  /** The column map the header loop builds from the fields seen so far: each entry overwrites. */
  function HeaderMap(fields: seq<Option<Field>>): map<Field, nat>
  {
    if fields == [] then map[]
    else
      var m := HeaderMap(fields[..|fields| - 1]);
      match fields[|fields| - 1]
      case None => m
      case Some(f) => m[f := |fields|]
  }

  /** The map holds, for each field, the column `LastColumn` finds, and no other field. */
  lemma {:induction false} HeaderMapLastColumn(fields: seq<Option<Field>>)
    ensures forall f :: f in HeaderMap(fields) <==> LastColumn(fields, f).Some?
    ensures forall f :: f in HeaderMap(fields) ==> HeaderMap(fields)[f] == LastColumn(fields, f).value
  {
    if fields != [] {
      HeaderMapLastColumn(fields[..|fields| - 1]);
    }
  }

  /** The `for col_idx, cell in enumerate(sheet[1], 1)` loop filling `headers`. */
  method ClassifyHeaders(header: seq<Cell>) returns (headers: map<Field, nat>)
    ensures forall f :: f in headers <==> LastColumn(Fields(header), f).Some?
    ensures forall f :: f in headers ==> headers[f] == LastColumn(Fields(header), f).value
  {
    var fields := Fields(header);
    headers := map[];
    var i := 0;
    while i < |fields|
      invariant 0 <= i <= |fields|
      invariant headers == HeaderMap(fields[..i])
    {
      assert fields[..i + 1][..i] == fields[..i];
      match fields[i] {
        case None =>
        case Some(f) => headers := headers[f := i + 1];
      }
      i := i + 1;
    }
    assert fields[..|fields|] == fields;
    HeaderMapLastColumn(fields);
  }

  // ---------------------------------------------------------------------
  // Row extraction
  // ---------------------------------------------------------------------

  /** The columns found: name and roll number are required, the URLs optional. */
  datatype Columns = Columns(name: nat, roll: nat, leetcode: Option<nat>, hackerrank: Option<nat>)

  /** The text fields of one new `Student` row. */
  datatype NewStudent = NewStudent(name: string, rollNumber: string, leetcodeUrl: string, hackerrankUrl: string)

  /** `str(v).strip() if v else ""` for an optional column. */
  function OptionalText(row: seq<Cell>, col: Option<nat>): string
  {
    if col.Some? && Truthy(CellAt(row, col.value)) then Strip(CellText(CellAt(row, col.value))) else ""
  }

  /** The student a row with a name yields. */
  function RowStudent(row: seq<Cell>, cols: Columns): NewStudent
    requires Truthy(CellAt(row, cols.name))
  {
    var roll := CellAt(row, cols.roll);
    NewStudent(
      Strip(CellText(CellAt(row, cols.name))),
      if Truthy(roll) then Strip(CellText(roll)) else "",
      OptionalText(row, cols.leetcode),
      OptionalText(row, cols.hackerrank))
  }

  /** The students the data rows yield, rows with an empty name cell skipped. */
  function Extracted(rows: seq<seq<Cell>>, cols: Columns): seq<NewStudent>
  {
    if rows == [] then []
    else
      var last := rows[|rows| - 1];
      Extracted(rows[..|rows| - 1], cols) + (if Truthy(CellAt(last, cols.name)) then [RowStudent(last, cols)] else [])
  }

  /** The rows whose name cell is not empty, in sheet order. */
  function NamedRows(rows: seq<seq<Cell>>, nameCol: nat): (named: seq<seq<Cell>>)
    ensures |named| <= |rows|
    ensures forall k :: 0 <= k < |named| ==> Truthy(CellAt(named[k], nameCol)) && named[k] in rows
    ensures forall k :: 0 <= k < |rows| && Truthy(CellAt(rows[k], nameCol)) ==> rows[k] in named
  {
    if rows == [] then []
    else
      var rest := NamedRows(rows[1..], nameCol);
      assert forall k :: 1 <= k < |rows| ==> rows[k] == rows[1..][k - 1];
      if Truthy(CellAt(rows[0], nameCol)) then [rows[0]] + rest else rest
  }

  lemma NamedRowsAppend(a: seq<seq<Cell>>, b: seq<seq<Cell>>, nameCol: nat)
    ensures NamedRows(a + b, nameCol) == NamedRows(a, nameCol) + NamedRows(b, nameCol)
  {
    if a == [] {
      assert a + b == b;
    } else {
      assert (a + b)[0] == a[0];
      assert (a + b)[1..] == a[1..] + b;
      NamedRowsAppend(a[1..], b, nameCol);
      AppendAssoc([a[0]], NamedRows(a[1..], nameCol), NamedRows(b, nameCol));
    }
  }

  /**
   * The extracted students are exactly the named rows, in order, each
   * mapped to its student; so the count is the number of named rows.
   */
  lemma {:induction false} ExtractedIsNamedRows(rows: seq<seq<Cell>>, cols: Columns)
    ensures var named := NamedRows(rows, cols.name);
      && |Extracted(rows, cols)| == |named|
      && forall k :: 0 <= k < |named| ==> Extracted(rows, cols)[k] == RowStudent(named[k], cols)
  {
    if rows != [] {
      var init, last := rows[..|rows| - 1], rows[|rows| - 1];
      ExtractedIsNamedRows(init, cols);
      assert rows == init + [last];
      NamedRowsAppend(init, [last], cols.name);
      assert [last][1..] == [];
    }
  }

  /** A name cell holding only spaces is not skipped: its student gets the empty name. */
  lemma BlankNameKept(row: seq<Cell>, cols: Columns, spaces: string)
    requires spaces != [] && forall k :: 0 <= k < |spaces| ==> spaces[k] == ' '
    requires CellAt(row, cols.name) == Str(spaces)
    ensures Extracted([row], cols) == [RowStudent(row, cols)] && RowStudent(row, cols).name == ""
  {
    assert [row][..0] == [];
    assert TrimEnd(spaces) == [] by {
      TrimEndAllSpace(spaces);
    }
  }

  lemma {:induction false} TrimEndAllSpace(s: string)
    requires forall k :: 0 <= k < |s| ==> IsSpace(s[k])
    ensures TrimEnd(s) == []
    decreases |s|
  {
    if s != [] {
      TrimEndAllSpace(s[..|s| - 1]);
    }
  }

  /** The `for row in sheet.iter_rows(min_row=2)` loop: skip rows without a name, count the rest. */
  method ExtractRows(rows: seq<seq<Cell>>, cols: Columns) returns (added: seq<NewStudent>, studentsAdded: nat)
    ensures added == Extracted(rows, cols)
    ensures studentsAdded == |added|
  {
    added := [];
    studentsAdded := 0;
    var i := 0;
    while i < |rows|
      invariant 0 <= i <= |rows|
      invariant added == Extracted(rows[..i], cols)
      invariant studentsAdded == |added|
    {
      assert rows[..i + 1][..i] == rows[..i];
      var row := rows[i];
      if Truthy(CellAt(row, cols.name)) {
        added := added + [RowStudent(row, cols)];
        studentsAdded := studentsAdded + 1;
      }
      i := i + 1;
    }
    assert rows[..|rows|] == rows;
  }

  // ---------------------------------------------------------------------
  // The stored rows and the account flags
  // ---------------------------------------------------------------------

  /** A row of the `students` table (its id is assigned by the database and not modelled). */
  datatype StudentRow = StudentRow(
    name: string, rollNumber: string, leetcodeUrl: string, hackerrankUrl: string,
    category: string, uploadedBy: int,
    leetcodeSolved: Option<int>, hrJavaStars: Option<int>, hrPythonStars: Option<int>,
    hrCStars: Option<int>, hrSqlStars: Option<int>)

  predicate Owned(r: StudentRow, category: string, userId: int)
  {
    r.category == category && r.uploadedBy == userId
  }

  /** The rows that the category's delete for this user leaves. */
  function Without(rows: seq<StudentRow>, category: string, userId: int): (r: seq<StudentRow>)
    ensures forall k :: 0 <= k < |r| ==> !Owned(r[k], category, userId) && r[k] in rows
    ensures forall k :: 0 <= k < |rows| && !Owned(rows[k], category, userId) ==> rows[k] in r
  {
    if rows == [] then []
    else
      var rest := Without(rows[1..], category, userId);
      assert forall k :: 1 <= k < |rows| ==> rows[k] == rows[1..][k - 1];
      if Owned(rows[0], category, userId) then rest else [rows[0]] + rest
  }

  /** How many rows the delete removes. */
  function OwnedCount(rows: seq<StudentRow>, category: string, userId: int): (n: nat)
    ensures n + |Without(rows, category, userId)| == |rows|
  {
    if rows == [] then 0
    else (if Owned(rows[0], category, userId) then 1 else 0) + OwnedCount(rows[1..], category, userId)
  }

  lemma WithoutAppend(a: seq<StudentRow>, b: seq<StudentRow>, category: string, userId: int)
    ensures Without(a + b, category, userId) == Without(a, category, userId) + Without(b, category, userId)
  {
    if a == [] {
      assert a + b == b;
    } else {
      assert (a + b)[0] == a[0];
      assert (a + b)[1..] == a[1..] + b;
      WithoutAppend(a[1..], b, category, userId);
      AppendAssoc([a[0]], Without(a[1..], category, userId), Without(b, category, userId));
    }
  }

  lemma {:induction false} WithoutAllOwned(rows: seq<StudentRow>, category: string, userId: int)
    requires forall k :: 0 <= k < |rows| ==> Owned(rows[k], category, userId)
    ensures Without(rows, category, userId) == []
  {
    if rows != [] {
      WithoutAllOwned(rows[1..], category, userId);
    }
  }

  lemma {:induction false} WithoutIdempotent(rows: seq<StudentRow>, category: string, userId: int)
    ensures Without(Without(rows, category, userId), category, userId) == Without(rows, category, userId)
  {
    if rows != [] {
      WithoutIdempotent(rows[1..], category, userId);
      var rest := Without(rows[1..], category, userId);
      if !Owned(rows[0], category, userId) {
        assert ([rows[0]] + rest)[0] == rows[0];
        assert ([rows[0]] + rest)[1..] == rest;
      }
    }
  }

  /** The new rows an upload stores. */
  function Stored(added: seq<NewStudent>, category: string, userId: int): (r: seq<StudentRow>)
    ensures |r| == |added|
    ensures forall k :: 0 <= k < |r| ==> Owned(r[k], category, userId)
    ensures forall k :: 0 <= k < |r| ==>
      && r[k].name == added[k].name && r[k].rollNumber == added[k].rollNumber
      && r[k].leetcodeUrl == added[k].leetcodeUrl && r[k].hackerrankUrl == added[k].hackerrankUrl
    ensures forall k :: 0 <= k < |r| ==>
      && r[k].leetcodeSolved.None? && r[k].hrJavaStars.None? && r[k].hrPythonStars.None?
      && r[k].hrCStars.None? && r[k].hrSqlStars.None?
  {
    seq(|added|, k requires 0 <= k < |added| =>
      StudentRow(added[k].name, added[k].rollNumber, added[k].leetcodeUrl, added[k].hackerrankUrl,
                 category, userId, None, None, None, None, None))
  }

  /**
   * An upload followed by a delete of the same category leaves exactly the
   * rows of other categories and other users.
   */
  lemma UploadThenDelete(rows: seq<StudentRow>, added: seq<NewStudent>, category: string, userId: int)
    ensures Without(Without(rows, category, userId) + Stored(added, category, userId), category, userId)
      == Without(rows, category, userId)
  {
    var s := Stored(added, category, userId);
    WithoutAppend(Without(rows, category, userId), s, category, userId);
    WithoutIdempotent(rows, category, userId);
    WithoutAllOwned(s, category, userId);
    assert Without(rows, category, userId) + [] == Without(rows, category, userId);
  }

  /** The `User` row's upload flags. */
  class Account {
    const id: int
    var hasUploaded1stYear: bool
    var hasUploaded2ndYear: bool
    var hasUploaded3rdYear: bool
    var hasUploaded4thYear: bool

    constructor (id: int)
      ensures this.id == id
      ensures !hasUploaded1stYear && !hasUploaded2ndYear && !hasUploaded3rdYear && !hasUploaded4thYear
    {
      this.id := id;
      hasUploaded1stYear := false;
      hasUploaded2ndYear := false;
      hasUploaded3rdYear := false;
      hasUploaded4thYear := false;
    }

    /** Sets the named category's flag; the other three keep their values. */
    method SetUploaded(category: string, value: bool)
      requires ValidCategory(category)
      modifies this
      ensures hasUploaded2ndYear == (if category == "2nd_year" then value else old(hasUploaded2ndYear))
      ensures hasUploaded3rdYear == (if category == "3rd_year" then value else old(hasUploaded3rdYear))
      ensures hasUploaded1stYear == old(hasUploaded1stYear) && hasUploaded4thYear == old(hasUploaded4thYear)
    {
      if category == "2nd_year" {
        hasUploaded2ndYear := value;
      } else if category == "3rd_year" {
        hasUploaded3rdYear := value;
      }
    }
  }

  /** The `students` table. */
  class StudentTable {
    var rows: seq<StudentRow>

    constructor ()
      ensures rows == []
    {
      rows := [];
    }

    /** `Student.query.filter(category, uploaded_by).delete()`: the number of rows removed. */
    method DeleteOwned(category: string, userId: int) returns (deleted: nat)
      modifies this
      ensures rows == Without(old(rows), category, userId)
      ensures deleted == OwnedCount(old(rows), category, userId)
    {
      deleted := OwnedCount(rows, category, userId);
      rows := Without(rows, category, userId);
    }

    /** `db.add` for each extracted student. */
    method AddAll(added: seq<NewStudent>, category: string, userId: int)
      modifies this
      ensures rows == old(rows) + Stored(added, category, userId)
    {
      rows := rows + Stored(added, category, userId);
    }
  }

  // ---------------------------------------------------------------------
  // The handlers
  // ---------------------------------------------------------------------

  const UploadCategoryDetail := "Category must be '2nd_year' or '3rd_year'"
  const UploadFileDetail := "Only Excel files (.xlsx, .xls) are allowed"
  const InvalidCategoryDetail := "Invalid category"

  const ExpectedColumnsDetail := "' not found. Expected columns: Name, Roll Number, Leetcode Profile URL, HackerRank URL"

  function MissingColumnDetail(field: string): string
  {
    "Column '" + field + ExpectedColumnsDetail
  }

  /** The columns a header row yields, when it has the two required ones. */
  function ColumnsOf(header: seq<Cell>): Option<Columns>
  {
    var fields := Fields(header);
    var name, roll := LastColumn(fields, NameField), LastColumn(fields, RollField);
    if name.None? || roll.None? then None
    else Some(Columns(name.value, roll.value, LastColumn(fields, LeetcodeField), LastColumn(fields, HackerrankField)))
  }

  function HeaderRow(sheet: seq<seq<Cell>>): seq<Cell>
  {
    if sheet == [] then [] else sheet[0]
  }

  function DataRows(sheet: seq<seq<Cell>>): seq<seq<Cell>>
  {
    if sheet == [] then [] else sheet[1..]
  }

  /**
   * What `upload_excel` answers for a loaded sheet: a 400 naming the first
   * required column the header row lacks, otherwise the students of the
   * named data rows.
   */
  function SheetPlan(sheet: seq<seq<Cell>>): (r: Outcome<seq<NewStudent>>)
    ensures var fields := Fields(HeaderRow(sheet));
      && (LastColumn(fields, NameField).None? ==> r == Failure(400, MissingColumnDetail("name")))
      && (LastColumn(fields, NameField).Some? && LastColumn(fields, RollField).None? ==>
            r == Failure(400, MissingColumnDetail("roll_number")))
    ensures r.Success? <==> ColumnsOf(HeaderRow(sheet)).Some?
    ensures r.Success? ==> r.value == Extracted(DataRows(sheet), ColumnsOf(HeaderRow(sheet)).value)
  {
    var header := HeaderRow(sheet);
    var cols := ColumnsOf(header);
    if cols.Some? then Success(Extracted(DataRows(sheet), cols.value))
    else if LastColumn(Fields(header), NameField).None? then Failure(400, MissingColumnDetail("name"))
    else Failure(400, MissingColumnDetail("roll_number"))
  }

  /**
   * What `upload_excel` answers. `workbook` is the active sheet's rows, or
   * `None` when the file does not load (a 500). The checks run in order:
   * category, file name, workbook, then the two required columns; past
   * them, the students of the named data rows.
   */
  function UploadPlan(category: string, filename: string, workbook: Option<seq<seq<Cell>>>): (r: Outcome<seq<NewStudent>>)
    ensures !ValidCategory(category) ==> r == Failure(400, UploadCategoryDetail)
    ensures ValidCategory(category) && !AllowedFilename(filename) ==> r == Failure(400, UploadFileDetail)
    ensures ValidCategory(category) && AllowedFilename(filename) && workbook.None? ==> r.Failure? && r.status == 500
    ensures ValidCategory(category) && AllowedFilename(filename) && workbook.Some? ==> r == SheetPlan(workbook.value)
  {
    if !ValidCategory(category) then Failure(400, UploadCategoryDetail)
    else if !AllowedFilename(filename) then Failure(400, UploadFileDetail)
    else if workbook.None? then Failure(500, "Error processing file")
    else SheetPlan(workbook.value)
  }

  /**
   * `upload_excel`: answers as `UploadPlan` does; a refused upload touches
   * neither the table nor the flags, a complete one replaces the user's
   * rows of the category by the new students and sets that category's flag.
   */
  method UploadExcel(category: string, filename: string, workbook: Option<seq<seq<Cell>>>,
                     user: Account, table: StudentTable) returns (r: Outcome<nat>)
    modifies user, table
    ensures var plan := UploadPlan(category, filename, workbook);
      && (plan.Failure? ==>
            && r == Failure(plan.status, plan.detail)
            && table.rows == old(table.rows)
            && user.hasUploaded2ndYear == old(user.hasUploaded2ndYear)
            && user.hasUploaded3rdYear == old(user.hasUploaded3rdYear))
      && (plan.Success? ==>
            && r == Success(|plan.value|)
            && table.rows == Without(old(table.rows), category, user.id) + Stored(plan.value, category, user.id)
            && user.hasUploaded2ndYear == (category == "2nd_year" || old(user.hasUploaded2ndYear))
            && user.hasUploaded3rdYear == (category == "3rd_year" || old(user.hasUploaded3rdYear)))
    ensures user.hasUploaded1stYear == old(user.hasUploaded1stYear) && user.hasUploaded4thYear == old(user.hasUploaded4thYear)
  {
    ghost var plan := UploadPlan(category, filename, workbook);
    if !ValidCategory(category) {
      assert plan == Failure(400, UploadCategoryDetail);
      return Failure(400, UploadCategoryDetail);
    }
    if !AllowedFilename(filename) {
      assert plan == Failure(400, UploadFileDetail);
      return Failure(400, UploadFileDetail);
    }
    if workbook.None? {
      assert plan == Failure(500, "Error processing file");
      return Failure(500, "Error processing file");
    }
    var sheet := workbook.value;
    var headers := ClassifyHeaders(HeaderRow(sheet));
    if NameField !in headers {
      assert plan == Failure(400, MissingColumnDetail("name"));
      return Failure(400, MissingColumnDetail("name"));
    }
    if RollField !in headers {
      assert plan == Failure(400, MissingColumnDetail("roll_number"));
      return Failure(400, MissingColumnDetail("roll_number"));
    }
    var cols := Columns(headers[NameField], headers[RollField],
                        if LeetcodeField in headers then Some(headers[LeetcodeField]) else None,
                        if HackerrankField in headers then Some(headers[HackerrankField]) else None);
    assert ColumnsOf(HeaderRow(sheet)) == Some(cols);
    assert plan == Success(Extracted(DataRows(sheet), cols));
    r := StoreUpload(category, DataRows(sheet), cols, user, table);
  }

  /** The committing part of `upload_excel`: delete, add the named rows, set the flag. */
  method StoreUpload(category: string, rows: seq<seq<Cell>>, cols: Columns,
                     user: Account, table: StudentTable) returns (r: Outcome<nat>)
    requires ValidCategory(category)
    modifies user, table
    ensures r == Success(|Extracted(rows, cols)|)
    ensures table.rows == Without(old(table.rows), category, user.id) + Stored(Extracted(rows, cols), category, user.id)
    ensures user.hasUploaded2ndYear == (category == "2nd_year" || old(user.hasUploaded2ndYear))
    ensures user.hasUploaded3rdYear == (category == "3rd_year" || old(user.hasUploaded3rdYear))
    ensures user.hasUploaded1stYear == old(user.hasUploaded1stYear) && user.hasUploaded4thYear == old(user.hasUploaded4thYear)
  {
    var _ := table.DeleteOwned(category, user.id);
    var added, studentsAdded := ExtractRows(rows, cols);
    table.AddAll(added, category, user.id);
    user.SetUploaded(category, true);
    return Success(studentsAdded);
  }

  /** `get_students`: 400 for another category, else the user's rows of it (in the query's order). */
  function GetStudents(category: string, query: seq<StudentRow>): (r: Outcome<seq<StudentRow>>)
    ensures r.Failure? <==> !ValidCategory(category)
    ensures r.Failure? ==> r == Failure(400, InvalidCategoryDetail)
    ensures r.Success? ==> r.value == query
  {
    if !ValidCategory(category) then Failure(400, InvalidCategoryDetail) else Success(query)
  }

  /** `delete_category_data`: removes the user's rows of the category and clears its flag. */
  method DeleteCategoryData(category: string, user: Account, table: StudentTable) returns (r: Outcome<nat>)
    modifies user, table
    ensures !ValidCategory(category) ==>
      (r == Failure(400, InvalidCategoryDetail)
       && table.rows == old(table.rows)
       && user.hasUploaded2ndYear == old(user.hasUploaded2ndYear) && user.hasUploaded3rdYear == old(user.hasUploaded3rdYear))
    ensures ValidCategory(category) ==>
      && r == Success(OwnedCount(old(table.rows), category, user.id))
      && table.rows == Without(old(table.rows), category, user.id)
      && user.hasUploaded2ndYear == (category != "2nd_year" && old(user.hasUploaded2ndYear))
      && user.hasUploaded3rdYear == (category != "3rd_year" && old(user.hasUploaded3rdYear))
    ensures user.hasUploaded1stYear == old(user.hasUploaded1stYear) && user.hasUploaded4thYear == old(user.hasUploaded4thYear)
  {
    if !ValidCategory(category) {
      return Failure(400, InvalidCategoryDetail);
    }
    var deleted := table.DeleteOwned(category, user.id);
    user.SetUploaded(category, false);
    return Success(deleted);
  }

  // ---------------------------------------------------------------------
  // Export sheet
  // ---------------------------------------------------------------------

  const ExportHeader: seq<Cell> := [
    Str("S.No"), Str("Name"), Str("Roll Number"), Str("LeetCode Solved"), Str("Java Stars"),
    Str("Python Stars"), Str("C Stars"), Str("SQL Stars"), Str("LeetCode URL"), Str("HackerRank URL")]

  function MetricCell(m: Option<int>): Cell
  {
    if m.Some? then Int(m.value) else Blank
  }

  /**
   * The sheet row of the `index`-th student (from 1). `ExportSheetShape`
   * places it in the sheet and `ExportRowReimport` reads its cells back.
   */
  function ExportRow(index: nat, s: StudentRow): (row: seq<Cell>)
    ensures |row| == |ExportHeader|
  {
    [Int(index), Str(s.name), Str(s.rollNumber), MetricCell(s.leetcodeSolved), MetricCell(s.hrJavaStars),
     MetricCell(s.hrPythonStars), MetricCell(s.hrCStars), MetricCell(s.hrSqlStars),
     Str(s.leetcodeUrl), Str(s.hackerrankUrl)]
  }

  /**
   * `export_category_data`: 400 for another category, 404 when the query
   * (the user's rows of the category ordered by roll number) is empty, else
   * the header row and one row per student numbered from 1.
   */
  method ExportCategoryData(category: string, query: seq<StudentRow>) returns (r: Outcome<seq<seq<Cell>>>)
    ensures !ValidCategory(category) ==> r == Failure(400, InvalidCategoryDetail)
    ensures ValidCategory(category) && query == [] ==> r == Failure(404, "No data to export")
    ensures ValidCategory(category) && query != [] ==> r == Success(ExportSheet(query))
  {
    if !ValidCategory(category) {
      return Failure(400, InvalidCategoryDetail);
    }
    if query == [] {
      return Failure(404, "No data to export");
    }
    var sheet := [ExportHeader];
    var i := 0;
    while i < |query|
      invariant 0 <= i <= |query|
      invariant sheet == ExportSheet(query[..i])
    {
      assert query[..i + 1][..i] == query[..i];
      sheet := sheet + [ExportRow(i + 1, query[i])];
      i := i + 1;
    }
    assert query[..i] == query;
    return Success(sheet);
  }

  /** The exported sheet: the header row, then one row per student numbered from 1. */
  function ExportSheet(query: seq<StudentRow>): (sheet: seq<seq<Cell>>)
    ensures |sheet| == |query| + 1
  {
    if query == [] then [ExportHeader]
    else ExportSheet(query[..|query| - 1]) + [ExportRow(|query|, query[|query| - 1])]
  }

  /** The header row comes first, and row `i` is the `i`-th student of the query, numbered `i`. */
  lemma {:induction false} ExportSheetShape(query: seq<StudentRow>)
    ensures ExportSheet(query)[0] == ExportHeader
    ensures forall i :: 1 <= i <= |query| ==> ExportSheet(query)[i] == ExportRow(i, query[i - 1])
  {
    if query != [] {
      var n := |query|;
      ExportSheetShape(query[..n - 1]);
    }
  }

  // ---------------------------------------------------------------------
  // Re-uploading an export
  // ---------------------------------------------------------------------

  /** The columns the export's header row classifies to: "LeetCode URL" (9) overrides "LeetCode Solved" (4). */
  const ExportColumns := Columns(2, 3, Some(9), Some(10))

  /** The fields of the export's header cells, in column order. */
  const ExportFields: seq<Option<Field>> := [
    None, Some(NameField), Some(RollField), Some(LeetcodeField), None,
    None, None, None, Some(LeetcodeField), Some(HackerrankField)]

  /** `lowered` is the lower-cased form of a non-empty header text without surrounding whitespace. */
  predicate LowersTo(header: string, lowered: string)
  {
    && header != [] && Unpadded(header)
    && |header| == |lowered| && forall k :: 0 <= k < |header| ==> LowerChar(header[k]) == lowered[k]
  }

  /** The header text of an unpadded cell is its lower-cased text. */
  lemma HeaderOf(c: Cell, header: string, lowered: string)
    requires c == Str(header) && LowersTo(header, lowered)
    ensures Truthy(c) && HeaderText(c) == lowered
  {
    StripUnpadded(header);
    LowerOf(header, lowered);
  }

  /** A header cell whose text lacks a character of each of the four words names no field. */
  lemma UnnamedCell(c: Cell, header: string, lowered: string, inName: char, inRoll: char, inLeetcode: char, inHacker: char)
    requires c == Str(header) && LowersTo(header, lowered)
    requires inName in "name" && inName !in lowered && inRoll in "roll" && inRoll !in lowered
    requires inLeetcode in "leetcode" && inLeetcode !in lowered && inHacker in "hacker" && inHacker !in lowered
    ensures HeaderField(c) == None
  {
    HeaderOf(c, header, lowered);
    MissingCharNotContained(lowered, "name", inName);
    MissingCharNotContained(lowered, "roll", inRoll);
    MissingCharNotContained(lowered, "leetcode", inLeetcode);
    MissingCharNotContained(lowered, "hacker", inHacker);
    assert inHacker in "hackerrank";
    MissingCharNotContained(lowered, "hackerrank", inHacker);
  }

  lemma NameCell(c: Cell, header: string, lowered: string, inRoll: char)
    requires c == Str(header) && LowersTo(header, lowered)
    requires OccursAt(lowered, "name", 0) && inRoll in "roll" && inRoll !in lowered
    ensures HeaderField(c) == Some(NameField)
  {
    HeaderOf(c, header, lowered);
    MissingCharNotContained(lowered, "roll", inRoll);
  }

  lemma RollCell(c: Cell, header: string, lowered: string, inName: char)
    requires c == Str(header) && LowersTo(header, lowered)
    requires OccursAt(lowered, "roll", 0) && inName in "name" && inName !in lowered
    ensures HeaderField(c) == Some(RollField)
  {
    HeaderOf(c, header, lowered);
    MissingCharNotContained(lowered, "name", inName);
  }

  lemma LeetcodeCell(c: Cell, header: string, lowered: string)
    requires c == Str(header) && LowersTo(header, lowered)
    requires OccursAt(lowered, "leetcode", 0) && !Contains(lowered, "name") && !Contains(lowered, "roll")
    ensures HeaderField(c) == Some(LeetcodeField)
  {
    HeaderOf(c, header, lowered);
  }

  lemma HackerrankCell(c: Cell, header: string, lowered: string, inName: char, inRoll: char, inLeetcode: char)
    requires c == Str(header) && LowersTo(header, lowered)
    requires OccursAt(lowered, "hackerrank", 0)
    requires inName in "name" && inName !in lowered && inRoll in "roll" && inRoll !in lowered
    requires inLeetcode in "leetcode" && inLeetcode !in lowered
    ensures HeaderField(c) == Some(HackerrankField)
  {
    HeaderOf(c, header, lowered);
    MissingCharNotContained(lowered, "name", inName);
    MissingCharNotContained(lowered, "roll", inRoll);
    MissingCharNotContained(lowered, "leetcode", inLeetcode);
  }

  // The facts about each header literal, one literal per lemma.

  lemma SerialText(header: string, lowered: string)
    requires header == "S.No" && lowered == "s.no"
    ensures LowersTo(header, lowered) && 'a' !in lowered && 'r' !in lowered && 'l' !in lowered && 'h' !in lowered
  {
  }

  lemma NameText(header: string, lowered: string)
    requires header == "Name" && lowered == "name"
    ensures LowersTo(header, lowered) && OccursAt(lowered, "name", 0) && 'r' !in lowered
  {
  }

  lemma RollText(header: string, lowered: string)
    requires header == "Roll Number" && lowered == "roll number"
    ensures LowersTo(header, lowered) && OccursAt(lowered, "roll", 0) && 'a' !in lowered
  {
  }

  lemma SolvedText(header: string, lowered: string)
    requires header == "LeetCode Solved" && lowered == "leetcode solved"
    ensures LowersTo(header, lowered) && OccursAt(lowered, "leetcode", 0)
    ensures !Contains(lowered, "name") && !Contains(lowered, "roll")
  {
    MissingCharNotContained(lowered, "name", 'a');
    MissingCharNotContained(lowered, "roll", 'r');
  }

  lemma JavaText(header: string, lowered: string)
    requires header == "Java Stars" && lowered == "java stars"
    ensures LowersTo(header, lowered) && 'n' !in lowered && 'o' !in lowered && 'l' !in lowered && 'h' !in lowered
  {
  }

  lemma PythonText(header: string, lowered: string)
    requires header == "Python Stars" && lowered == "python stars"
    ensures LowersTo(header, lowered) && 'm' !in lowered && 'l' !in lowered && 'k' !in lowered
  {
  }

  lemma CText(header: string, lowered: string)
    requires header == "C Stars" && lowered == "c stars"
    ensures LowersTo(header, lowered) && 'n' !in lowered && 'o' !in lowered && 'l' !in lowered && 'h' !in lowered
  {
  }

  lemma SqlText(header: string, lowered: string)
    requires header == "SQL Stars" && lowered == "sql stars"
    ensures LowersTo(header, lowered) && 'n' !in lowered && 'o' !in lowered && 'e' !in lowered && 'h' !in lowered
  {
  }

  lemma LeetcodeUrlText(header: string, lowered: string)
    requires header == "LeetCode URL" && lowered == "leetcode url"
    ensures LowersTo(header, lowered) && OccursAt(lowered, "leetcode", 0)
    ensures !Contains(lowered, "name") && !Contains(lowered, "roll")
  {
    MissingCharNotContained(lowered, "name", 'n');
    forall i | 0 <= i <= |lowered| - 4
      ensures !OccursAt(lowered, "roll", i)
    {
      assert lowered[i..i + 4][0] == lowered[i] && lowered[i..i + 4][1] == lowered[i + 1];
    }
  }

  lemma HackerrankUrlText(header: string, lowered: string)
    requires header == "HackerRank URL" && lowered == "hackerrank url"
    ensures LowersTo(header, lowered) && OccursAt(lowered, "hackerrank", 0)
    ensures 'm' !in lowered && 'o' !in lowered && 't' !in lowered
  {
    HackerrankUrlLowers(header, lowered);
  }

  lemma HackerrankUrlLowers(header: string, lowered: string)
    requires header == "HackerRank URL" && lowered == "hackerrank url"
    ensures LowersTo(header, lowered)
  {
  }

  // Each export header cell, classified.

  lemma SerialHeader()
    ensures HeaderField(ExportHeader[0]) == ExportFields[0]
  {
    var c := ExportHeader[0];
    SerialText("S.No", "s.no");
    UnnamedCell(c, "S.No", "s.no", 'a', 'r', 'l', 'h');
  }

  lemma NameHeader()
    ensures HeaderField(ExportHeader[1]) == ExportFields[1]
  {
    var c := ExportHeader[1];
    NameText("Name", "name");
    NameCell(c, "Name", "name", 'r');
  }

  lemma RollHeader()
    ensures HeaderField(ExportHeader[2]) == ExportFields[2]
  {
    var c := ExportHeader[2];
    RollText("Roll Number", "roll number");
    RollCell(c, "Roll Number", "roll number", 'a');
  }

  lemma SolvedHeader()
    ensures HeaderField(ExportHeader[3]) == ExportFields[3]
  {
    var c := ExportHeader[3];
    SolvedText("LeetCode Solved", "leetcode solved");
    LeetcodeCell(c, "LeetCode Solved", "leetcode solved");
  }

  lemma JavaHeader()
    ensures HeaderField(ExportHeader[4]) == ExportFields[4]
  {
    var c := ExportHeader[4];
    JavaText("Java Stars", "java stars");
    UnnamedCell(c, "Java Stars", "java stars", 'n', 'o', 'l', 'h');
  }

  lemma PythonHeader()
    ensures HeaderField(ExportHeader[5]) == ExportFields[5]
  {
    var c := ExportHeader[5];
    PythonText("Python Stars", "python stars");
    UnnamedCell(c, "Python Stars", "python stars", 'm', 'l', 'l', 'k');
  }

  lemma CHeader()
    ensures HeaderField(ExportHeader[6]) == ExportFields[6]
  {
    var c := ExportHeader[6];
    CText("C Stars", "c stars");
    UnnamedCell(c, "C Stars", "c stars", 'n', 'o', 'l', 'h');
  }

  lemma SqlHeader()
    ensures HeaderField(ExportHeader[7]) == ExportFields[7]
  {
    var c := ExportHeader[7];
    SqlText("SQL Stars", "sql stars");
    UnnamedCell(c, "SQL Stars", "sql stars", 'n', 'o', 'e', 'h');
  }

  lemma LeetcodeUrlHeader()
    ensures HeaderField(ExportHeader[8]) == ExportFields[8]
  {
    var c := ExportHeader[8];
    LeetcodeUrlText("LeetCode URL", "leetcode url");
    LeetcodeCell(c, "LeetCode URL", "leetcode url");
  }

  lemma HackerrankUrlHeader()
    ensures HeaderField(ExportHeader[9]) == ExportFields[9]
  {
    var c := ExportHeader[9];
    HackerrankUrlText("HackerRank URL", "hackerrank url");
    HackerrankCell(c, "HackerRank URL", "hackerrank url", 'm', 'o', 't');
  }

  /** How the export's header cells classify: two columns name LeetCode, and neither "... Stars" column names a field. */
  lemma ExportHeaderFields()
    ensures Fields(ExportHeader) == ExportFields
  {
    SerialHeader();
    NameHeader();
    RollHeader();
    SolvedHeader();
    JavaHeader();
    PythonHeader();
    CHeader();
    SqlHeader();
    LeetcodeUrlHeader();
    HackerrankUrlHeader();
    var fields := Fields(ExportHeader);
    FieldsAt(ExportHeader, 0);
    FieldsAt(ExportHeader, 1);
    FieldsAt(ExportHeader, 2);
    FieldsAt(ExportHeader, 3);
    FieldsAt(ExportHeader, 4);
    FieldsAt(ExportHeader, 5);
    FieldsAt(ExportHeader, 6);
    FieldsAt(ExportHeader, 7);
    FieldsAt(ExportHeader, 8);
    FieldsAt(ExportHeader, 9);
    TenElements(fields);
  }

  lemma TenElements<T>(s: seq<T>)
    requires |s| == 10
    ensures s == [s[0], s[1], s[2], s[3], s[4], s[5], s[6], s[7], s[8], s[9]]
  {
  }

  lemma LastColumnAt(fields: seq<Option<Field>>, f: Field, col: nat)
    requires 1 <= col <= |fields| && fields[col - 1] == Some(f)
    requires forall k :: col <= k < |fields| ==> fields[k] != Some(f)
    ensures LastColumn(fields, f) == Some(col)
  {
    LastColumnSpec(fields, f);
  }

  /** The last column naming each field among the export's header fields. */
  lemma ExportFieldsColumns()
    ensures LastColumn(ExportFields, NameField) == Some(2) && LastColumn(ExportFields, RollField) == Some(3)
    ensures LastColumn(ExportFields, LeetcodeField) == Some(9) && LastColumn(ExportFields, HackerrankField) == Some(10)
  {
    LastColumnAt(ExportFields, NameField, 2);
    LastColumnAt(ExportFields, RollField, 3);
    LastColumnAt(ExportFields, LeetcodeField, 9);
    LastColumnAt(ExportFields, HackerrankField, 10);
  }

  /** The export's header row yields the required columns, so an exported sheet passes the column check. */
  lemma ExportHeaderColumns()
    ensures ColumnsOf(ExportHeader) == Some(ExportColumns)
  {
    ExportHeaderFields();
    ExportFieldsColumns();
  }

  /** A stored text that an upload reads back unchanged. */
  predicate Unpadded(s: string)
  {
    s == [] || (!IsSpace(s[0]) && !IsSpace(s[|s| - 1]))
  }

  /** What re-uploading a stored row gives back. */
  function AsNew(s: StudentRow): NewStudent
  {
    NewStudent(s.name, s.rollNumber, s.leetcodeUrl, s.hackerrankUrl)
  }

  /** An export row is read back as the student it was written from. */
  lemma ExportRowReimport(index: nat, s: StudentRow)
    requires Reimportable(s)
    ensures Truthy(CellAt(ExportRow(index, s), ExportColumns.name))
    ensures RowStudent(ExportRow(index, s), ExportColumns) == AsNew(s)
  {
    var row := ExportRow(index, s);
    assert CellAt(row, 2) == Str(s.name);
    assert CellAt(row, 3) == Str(s.rollNumber);
    assert CellAt(row, 9) == Str(s.leetcodeUrl);
    assert CellAt(row, 10) == Str(s.hackerrankUrl);
    StripUnpadded(s.name);
    StripUnpadded(s.rollNumber);
    StripUnpadded(s.leetcodeUrl);
    StripUnpadded(s.hackerrankUrl);
  }

  /** What re-uploading stored rows gives back, in order. */
  function AllAsNew(query: seq<StudentRow>): (r: seq<NewStudent>)
    ensures |r| == |query|
  {
    if query == [] then [] else AllAsNew(query[..|query| - 1]) + [AsNew(query[|query| - 1])]
  }

  /** A stored row whose texts an upload reads back unchanged. */
  predicate Reimportable(s: StudentRow)
  {
    s.name != [] && Unpadded(s.name) && Unpadded(s.rollNumber) && Unpadded(s.leetcodeUrl) && Unpadded(s.hackerrankUrl)
  }

  /** The data rows of an export are read back as the exported students. */
  lemma {:induction false} ExportRowsReimport(query: seq<StudentRow>)
    requires forall i :: 0 <= i < |query| ==> Reimportable(query[i])
    ensures Extracted(ExportSheet(query)[1..], ExportColumns) == AllAsNew(query)
  {
    if query != [] {
      var n := |query|;
      var rows := ExportSheet(query)[1..];
      var row := ExportRow(n, query[n - 1]);
      ExportRowsReimport(query[..n - 1]);
      ExportRowReimport(n, query[n - 1]);
      assert rows == ExportSheet(query[..n - 1])[1..] + [row];
      assert rows[..n - 1] == ExportSheet(query[..n - 1])[1..];
      assert rows[n - 1] == row;
    }
  }

  /**
   * Uploading an exported sheet under the same category recreates the
   * exported students' text fields, in export order, when every name is
   * non-empty and no stored text has surrounding whitespace.
   */
  lemma ExportReimport(category: string, filename: string, query: seq<StudentRow>)
    requires ValidCategory(category) && AllowedFilename(filename)
    requires forall i :: 0 <= i < |query| ==> Reimportable(query[i])
    ensures UploadPlan(category, filename, Some(ExportSheet(query))) == Success(AllAsNew(query))
  {
    ExportSheetShape(query);
    ExportRowsReimport(query);
    ExportSheetPlan(category, filename, ExportSheet(query), AllAsNew(query));
  }

  /** A sheet under the export's header row passes every check and yields its data rows' students. */
  lemma ExportSheetPlan(category: string, filename: string, sheet: seq<seq<Cell>>, students: seq<NewStudent>)
    requires ValidCategory(category) && AllowedFilename(filename)
    requires sheet != [] && sheet[0] == ExportHeader && Extracted(sheet[1..], ExportColumns) == students
    ensures UploadPlan(category, filename, Some(sheet)) == Success(students)
  {
    ExportHeaderColumns();
    ReimportPlan(category, filename, sheet, ExportColumns);
  }

  lemma ReimportPlan(category: string, filename: string, sheet: seq<seq<Cell>>, cols: Columns)
    requires ValidCategory(category) && AllowedFilename(filename)
    requires sheet != [] && ColumnsOf(sheet[0]) == Some(cols)
    ensures UploadPlan(category, filename, Some(sheet)) == Success(Extracted(sheet[1..], cols))
  {
  }
}
