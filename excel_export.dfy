/** Spreadsheet export of saving records (frontend/src/utils/excelExport.ts):
    one numbered row per record, a closing total row, and a file name. The
    XLSX encoding and the locale formatting of dates are not modelled: a
    date or time cell holds the instant it shows. */
module ExcelExport {

  import opened Wrappers
  import opened Seqs
  import opened Text
  import opened ClientTypes

  /** A 날짜 or 시간 cell: empty, or the instant rendered by `toLocale…String("ko-KR")`. */
  datatype Moment = NoMoment | At(instant: int)

  /** One sheet row: 번호, 날짜, 시간, 항목명, 카테고리, 절약금액, 메모. */
  datatype Row = Row(number: int, date: Moment, time: Moment, itemName: string, category: string, amount: int, memo: string)

  datatype Workbook = Workbook(sheetName: string, rows: seq<Row>, columnWidths: seq<int>)

  datatype ExportResult = ExportResult(totalRecords: int, totalAmount: int, filename: string)

  const SHEET_NAME: string := "절약기록"
  const COLUMN_WIDTHS: seq<int> := [8, 12, 10, 20, 12, 15, 30]

  /** `record.memo || "-"`: a missing or empty memo shows as a dash. */
  function MemoCell(memo: Option<string>): (m: string)
    ensures memo.Some? && memo.value != "" ==> m == memo.value
    ensures memo.None? || memo.value == "" ==> m == "-"
  {
    if memo.Some? && memo.value != "" then memo.value else "-"
  }

  function DataRow(record: Record, index: int): Row
  {
    Row(index + 1, At(record.createdAt), At(record.createdAt), record.itemName, record.category, record.amount, MemoCell(record.memo))
  }

  /** The total row: 번호 0, 항목명 "총 합계", the amount total, and "총 n건". */
  function TotalRow(records: seq<Record>): Row
  {
    Row(0, NoMoment, NoMoment, "총 합계", "", SumBy(records, AmountOf), "총 " + NatToString(|records|) + "건")
  }

  /** `filename || fallback`. */
  function ChooseFilename(filename: Option<string>, fallback: string): (f: string)
    ensures filename.Some? && filename.value != "" ==> f == filename.value
    ensures filename.None? || filename.value == "" ==> f == fallback
  {
    if filename.Some? && filename.value != "" then filename.value else fallback
  }

  /** `exportToExcel(records, filename)`; `isoNow` is `new Date().toISOString()`.
      Returns the workbook written to the file together with the result. */
  method ExportToExcel(records: seq<Record>, filename: Option<string>, isoNow: string)
    returns (workbook: Workbook, result: ExportResult)
    ensures |workbook.rows| == |records| + 1
    ensures forall i :: 0 <= i < |records| ==>
              && workbook.rows[i].number == i + 1
              && workbook.rows[i].date == At(records[i].createdAt)
              && workbook.rows[i].time == At(records[i].createdAt)
              && workbook.rows[i].itemName == records[i].itemName
              && workbook.rows[i].category == records[i].category
              && workbook.rows[i].amount == records[i].amount
              && workbook.rows[i].memo == MemoCell(records[i].memo)
    ensures forall i :: 0 <= i < |records| ==> workbook.rows[i] == DataRow(records[i], i)
    ensures workbook.rows[|records|] == TotalRow(records)
    ensures workbook.sheetName == SHEET_NAME && workbook.columnWidths == COLUMN_WIDTHS
    ensures result.totalRecords == |records|
    ensures result.totalAmount == SumBy(records, AmountOf) == workbook.rows[|records|].amount
    ensures result.filename == ChooseFilename(filename, "절약기록_" + Before(isoNow, 'T') + ".xlsx")
  {
    var excelData := seq(|records|, i requires 0 <= i < |records| => DataRow(records[i], i));
    var totalAmount := SumBy(records, AmountOf);
    excelData := excelData + [Row(0, NoMoment, NoMoment, "총 합계", "", totalAmount, "총 " + NatToString(|records|) + "건")];
    workbook := Workbook(SHEET_NAME, excelData, COLUMN_WIDTHS);
    var defaultFilename := "절약기록_" + Before(isoNow, 'T') + ".xlsx";
    var finalFilename := ChooseFilename(filename, defaultFilename);
    result := ExportResult(|records|, totalAmount, finalFilename);
  }

  /** The records of `exportRecordsByPeriod`: `startDate <= createdAt <= endDate`. */
  function InPeriod(records: seq<Record>, startDate: int, endDate: int): (r: seq<Record>)
    ensures forall x :: x in r <==> x in records && startDate <= x.createdAt <= endDate
  {
    Filter(records, (x: Record) => startDate <= x.createdAt <= endDate)
  }

  /** The period export keeps the records in their original order. */
  lemma InPeriodKeepsOrder(records: seq<Record>, startDate: int, endDate: int)
    ensures IsSubsequence(InPeriod(records, startDate, endDate), records)
  {
    FilterIsSubsequence(records, (x: Record) => startDate <= x.createdAt <= endDate);
  }

  /** `exportRecordsByPeriod`; `startText` and `endText` are the two dates as
      `toLocaleDateString("ko-KR")` renders them. */
  method ExportRecordsByPeriod(records: seq<Record>, startDate: int, endDate: int, filename: Option<string>,
                               startText: string, endText: string, isoNow: string)
    returns (workbook: Workbook, result: ExportResult)
    ensures |workbook.rows| == |InPeriod(records, startDate, endDate)| + 1
    ensures forall i :: 0 <= i < |InPeriod(records, startDate, endDate)| ==>
              workbook.rows[i] == DataRow(InPeriod(records, startDate, endDate)[i], i)
    ensures workbook.rows[|InPeriod(records, startDate, endDate)|] == TotalRow(InPeriod(records, startDate, endDate))
    ensures result.totalRecords == |InPeriod(records, startDate, endDate)|
    ensures result.totalAmount == SumBy(InPeriod(records, startDate, endDate), AmountOf)
    ensures result.filename == ChooseFilename(filename, "절약기록_" + startText + "_" + endText + ".xlsx")
  {
    var filteredRecords := InPeriod(records, startDate, endDate);
    var periodText := startText + "_" + endText;
    var defaultFilename := "절약기록_" + periodText + ".xlsx";
    workbook, result := ExportToExcel(filteredRecords, Some(ChooseFilename(filename, defaultFilename)), isoNow);
  }

  /** `exportRecordsByCategory`. */
  method ExportRecordsByCategory(records: seq<Record>, category: string, filename: Option<string>, isoNow: string)
    returns (workbook: Workbook, result: ExportResult)
    ensures |workbook.rows| == |OfCategory(records, category)| + 1
    ensures forall i :: 0 <= i < |OfCategory(records, category)| ==>
              workbook.rows[i] == DataRow(OfCategory(records, category)[i], i)
    ensures workbook.rows[|OfCategory(records, category)|] == TotalRow(OfCategory(records, category))
    ensures forall i :: 0 <= i < |workbook.rows| - 1 ==> workbook.rows[i].category == category
    ensures result.totalRecords == |OfCategory(records, category)|
    ensures result.totalAmount == CategoryAmount(records, category)
    ensures result.filename == ChooseFilename(filename, "절약기록_" + category + "_" + Before(isoNow, 'T') + ".xlsx")
  {
    var filteredRecords := OfCategory(records, category);
    var defaultFilename := "절약기록_" + category + "_" + Before(isoNow, 'T') + ".xlsx";
    workbook, result := ExportToExcel(filteredRecords, Some(ChooseFilename(filename, defaultFilename)), isoNow);
    assert forall i :: 0 <= i < |filteredRecords| ==> filteredRecords[i] in filteredRecords;
  }
}
