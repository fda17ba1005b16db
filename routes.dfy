/**
 * The request-side helpers of app/api/routes.py: the file-extension check,
 * the handling of messages that are blank after the ASCII filter, and the
 * list of months offered by `get_available_months`.
 *
 * Every handler ends in `except Exception as e: raise
 * HTTPException(status_code=400, detail=str(e))`, so an HTTPException the
 * handler raises itself comes out with its own text, "400: <detail>", as
 * the new detail.
 */
module Routes {
  import opened Wrappers
  import opened Text
  import Service
  import Ingest

  /** An HTTPException: status code and detail. */
  datatype HttpError = HttpError(status: nat, detail: string)

  const BadRequest: nat := 400

  /** `str(exc)` for an HTTPException: "<status>: <detail>". */
  function Describe(e: HttpError): string {
    NatToString(e.status) + ": " + e.detail
  }

  /** What the handler's `except` turns a failure with text `text` into. */
  function Rewrap(text: string): HttpError {
    HttpError(BadRequest, text)
  }

  /** The text the handler's own 400 error carries after the `except` caught it. */
  lemma RewrapOwn(detail: string)
    ensures Rewrap(Describe(HttpError(BadRequest, detail))).detail == "400: " + detail
  {
    assert NatToString(400) == "400" by {
      assert NatToString(4) == "4";
      assert NatToString(40) == NatToString(4) + [DigitChar(0)];
    }
  }

  // ---------------------------------------------------------------------
  // The extension check
  // ---------------------------------------------------------------------

  const ExtensionMessage: string := "Only Excel files (.xlsx, .xls) are allowed"

  /** `filename.endswith(('.xlsx', '.xls'))`. */
  predicate IsExcelName(filename: string) {
    EndsWith(filename, ".xlsx") || EndsWith(filename, ".xls")
  }

  /** Only the last five or four characters decide: ".xlsx" or ".xls". */
  lemma ExcelNames(stem: string)
    ensures IsExcelName(stem + ".xlsx") && IsExcelName(stem + ".xls")
    ensures !IsExcelName(stem + ".csv") && !IsExcelName(stem + ".xlsm")
  {
    assert (stem + ".xlsx")[|stem + ".xlsx"| - 5..] == ".xlsx";
    assert (stem + ".xls")[|stem + ".xls"| - 4..] == ".xls";
    var c, m := stem + ".csv", stem + ".xlsm";
    assert c[|c| - 1] == 'v' && m[|m| - 1] == 'm';
  }

  // ---------------------------------------------------------------------
  // upload_excel
  // ---------------------------------------------------------------------

  /**
   * `upload_excel(file, target_month)`; an absent month is "". Reading the
   * upload is given as its outcome, as for `process_excel_content`.
   */
  function UploadExcel(filename: string, read: Result<Ingest.Table, string>, targetMonth: string, lib: Ingest.Library)
    : Result<Ingest.Processed, HttpError>
    requires read.Ok? ==> Ingest.Rectangular(read.value)
  {
    if !IsExcelName(filename) then Err(Rewrap(Describe(HttpError(BadRequest, ExtensionMessage))))
    else
      match Ingest.Process(read, targetMonth, lib)
      case Ok(p) => Ok(p)
      case Err(e) => Err(Rewrap(e))
  }

  /**
   * A name without an Excel extension is refused with status 400 before
   * anything is read; otherwise the upload gives what processing gives,
   * and a processing failure its message, under status 400.
   */
  lemma UploadExcelSpec(filename: string, read: Result<Ingest.Table, string>, targetMonth: string, lib: Ingest.Library)
    requires read.Ok? ==> Ingest.Rectangular(read.value)
    ensures var r := UploadExcel(filename, read, targetMonth, lib);
      && (r.Err? ==> r.error.status == BadRequest)
      && (!IsExcelName(filename) ==> r == Err(HttpError(BadRequest, "400: " + ExtensionMessage)))
      && (IsExcelName(filename) ==>
            var p := Ingest.Process(read, targetMonth, lib);
            && (r.Ok? <==> p.Ok?)
            && (p.Ok? ==> r.value == p.value)
            && (p.Err? ==> r.error.detail == p.error))
  {
    RewrapOwn(ExtensionMessage);
  }

  // ---------------------------------------------------------------------
  // send_whatsapp and test_whatsapp_simple
  // ---------------------------------------------------------------------

  const EmptyMessage: string := "Message is empty after cleaning"
  const TestFallback: AsciiText := "Test message from FastAPI"

  /** The dictionary `send_whatsapp` returns. */
  datatype SendReply = SendReply(status: string, message: string, phoneNumber: string, whatsappResult: Service.Reply)

  /** The dictionary `test_whatsapp_simple` returns. */
  datatype TestReply = TestReply(
    status: string,
    message: string,
    phoneNumber: string,
    originalMessage: string,
    sentMessage: string,
    whatsappResult: Service.Reply)

  /** `send_whatsapp(request)`: a message that is blank once filtered to ASCII is refused. */
  function SendWhatsapp(phone: string, message: string, start: Result<int, string>): Result<SendReply, HttpError> {
    var clean := AsciiOnly(message);
    if IsBlank(clean) then Err(Rewrap(Describe(HttpError(BadRequest, EmptyMessage))))
    else
      match Service.SendMessage(clean, start)
      case Started(_, reply) => Ok(SendReply("success", "WhatsApp message sent successfully", phone, reply))
      case Failed(e) => Err(Rewrap(e))
  }

  /** The text `test_whatsapp_simple` sends: the ASCII filter, with its own fallback for a blank result. */
  function TestText(message: string): string {
    var clean := AsciiOnly(message);
    if IsBlank(clean) then TestFallback else clean
  }

  /** `test_whatsapp_simple(phone_number, message)`. */
  function TestWhatsappSimple(phone: string, message: string, start: Result<int, string>): Result<TestReply, HttpError> {
    var clean := TestText(message);
    match Service.SendTestMessage(clean, start)
    case Started(_, reply) => Ok(TestReply("success", "WhatsApp test completed", phone, message, clean, reply))
    case Failed(e) => Err(Rewrap(e))
  }

  lemma TestFallbackNotBlank()
    ensures !IsBlank(TestFallback)
  {
    BlankIffAllSpace(TestFallback);
    assert !IsSpace(TestFallback[0]);
  }

  /**
   * `send_whatsapp` refuses, with status 400, exactly the messages that are
   * blank after the ASCII filter; any other is handed to the greeting worker
   * as exactly its ASCII characters, since the service's own cleaning then
   * changes nothing.
   */
  lemma SendWhatsappSpec(phone: string, message: string, start: Result<int, string>)
    ensures var r := SendWhatsapp(phone, message, start);
      && (r.Err? ==> r.error.status == BadRequest)
      && (r == Err(HttpError(BadRequest, "400: " + EmptyMessage)) <== IsBlank(AsciiOnly(message)))
      && (!IsBlank(AsciiOnly(message)) ==>
            var d := Service.SendMessage(AsciiOnly(message), start);
            && (d.Started? ==> d.worker == AsciiOnly(message) && r == Ok(SendReply("success", "WhatsApp message sent successfully", phone, d.reply)))
            && (d.Failed? ==> r == Err(HttpError(BadRequest, Service.SendFailed + start.error))))
  {
    RewrapOwn(EmptyMessage);
    AsciiOnlySpec(message);
    if !IsBlank(AsciiOnly(message)) {
      Service.CleanMessageKeepsAscii(AsciiOnly(message));
    }
  }

  /**
   * `test_whatsapp_simple` never refuses a message for its content: it
   * sends ASCII text that is never blank, the ASCII characters of the
   * message or "Test message from FastAPI" exactly when those are all
   * blanks, and reports that text and the original message.
   */
  lemma TestWhatsappSimpleSpec(phone: string, message: string, start: Result<int, string>)
    ensures AllAscii(TestText(message)) && !IsBlank(TestText(message))
    ensures IsBlank(AsciiOnly(message)) ==> TestText(message) == TestFallback
    ensures !IsBlank(AsciiOnly(message)) ==> TestText(message) == AsciiOnly(message)
    ensures var r := TestWhatsappSimple(phone, message, start);
      && (r.Ok? <==> start.Ok?)
      && (r.Ok? ==>
            r.value.sentMessage == Service.SendTestMessage(TestText(message), start).worker
            && r.value.originalMessage == message)
      && (r.Err? ==> r.error == HttpError(BadRequest, Service.TestFailed + start.error))
  {
    AsciiOnlySpec(message);
    TestFallbackNotBlank();
  }

  // ---------------------------------------------------------------------
  // get_available_months
  // ---------------------------------------------------------------------

  /** The month a reading date adds: "MM/YYYY" from "DD/MM/YYYY", nothing unless there are exactly three parts. */
  function MonthOf(date: string): Option<string> {
    if date != "" && '/' in date then
      var parts := Split(date, '/');
      if |parts| == 3 then Some(parts[1] + "/" + parts[2]) else None
    else None
  }

  /** A date adds a month exactly when it holds two slashes. */
  lemma MonthOfCount(date: string)
    ensures MonthOf(date).Some? <==> multiset(date)['/'] == 2
  {
    SplitCount(date, '/');
  }

  /** Three slash-free parts give the last two joined by '/'. */
  lemma MonthOfDate(day: string, month: string, year: string)
    requires '/' !in day && '/' !in month && '/' !in year
    ensures MonthOf(day + "/" + month + "/" + year) == Some(month + "/" + year)
  {
    var date := day + "/" + month + "/" + year;
    assert date == day + ['/'] + (month + ['/'] + year);
    SplitPrefix(day, month + ['/'] + year, '/');
    SplitPrefix(month, year, '/');
    SplitWithoutSeparator(year, '/');
    assert date[|day|] == '/';
  }

  /** A month comes only from a date of that shape. */
  lemma MonthOfParts(date: string)
    requires MonthOf(date).Some?
    ensures exists day, month, year ::
      && '/' !in day && '/' !in month && '/' !in year
      && date == day + "/" + month + "/" + year
      && MonthOf(date) == Some(month + "/" + year)
  {
    var parts := Split(date, '/');
    JoinSplit(date, '/');
    assert parts[1..][1..] == [parts[2]];
    assert Join(parts[1..], '/') == parts[1] + "/" + parts[2];
    assert date == parts[0] + "/" + (parts[1] + "/" + parts[2]);
  }

  /** The set the loop builds from the first records. */
  function MonthsIn(data: seq<Ingest.Item>): set<string> {
    if data == [] then {}
    else
      var last := data[|data| - 1];
      MonthsIn(data[..|data| - 1]) + match MonthOf(last.dataLeitura) { case Some(m) => {m} case None => {} }
  }

  /** The months found are exactly those some record's date adds. */
  lemma {:induction false} MonthsInSpec(data: seq<Ingest.Item>, m: string)
    ensures m in MonthsIn(data) <==> exists i :: 0 <= i < |data| && MonthOf(data[i].dataLeitura) == Some(m)
  {
    if data != [] {
      var n := |data| - 1;
      MonthsInSpec(data[..n], m);
      if m in MonthsIn(data[..n]) {
        var i :| 0 <= i < n && MonthOf(data[..n][i].dataLeitura) == Some(m);
        assert data[i] == data[..n][i];
      }
      if exists i :: 0 <= i < |data| && MonthOf(data[i].dataLeitura) == Some(m) {
        var i :| 0 <= i < |data| && MonthOf(data[i].dataLeitura) == Some(m);
        if i < n {
          assert data[..n][i] == data[i];
        }
      }
    }
  }

  /** Strictly ascending in Python's string order: sorted and free of duplicates. */
  predicate Ascending(r: seq<string>) {
    forall i, j :: 0 <= i < j < |r| ==> LexLess(r[i], r[j])
  }

  /** `x` put into its place in an ascending list that does not hold it. */
  function Insert(r: seq<string>, x: string): (res: seq<string>)
    requires Ascending(r) && x !in r
    ensures Ascending(res) && |res| == |r| + 1
    ensures forall y :: y in res <==> y in r || y == x
  {
    if r == [] then [x]
    else if LexLess(x, r[0]) then
      assert forall j :: 0 <= j < |r| ==> LexLess(x, r[j]) by {
        forall j | 0 < j < |r| {
          LexTransitive(x, r[0], r[j]);
        }
      }
      [x] + r
    else
      LexTotal(x, r[0]);
      var tail := Insert(r[1..], x);
      assert forall y :: y in tail ==> LexLess(r[0], y);
      [r[0]] + tail
  }

  /** `sorted(list(found))`. */
  method SortedList(found: set<string>) returns (r: seq<string>)
    ensures Ascending(r) && |r| == |found|
    ensures forall x :: x in r <==> x in found
  {
    r := [];
    var rest := found;
    while rest != {}
      invariant rest <= found
      invariant Ascending(r) && |r| + |rest| == |found|
      invariant forall x :: x in r <==> x in found && x !in rest
      decreases |rest|
    {
      var x :| x in rest;
      r := Insert(r, x);
      rest := rest - {x};
    }
  }

  /** An ascending list is fixed by its elements: the order in which the set hands them out does not matter. */
  lemma {:induction false} AscendingUnique(a: seq<string>, b: seq<string>)
    requires Ascending(a) && Ascending(b)
    requires forall x :: x in a <==> x in b
    ensures a == b
  {
    if a == [] {
      assert forall i :: 0 <= i < |b| ==> b[i] in b;
    } else {
      assert a[0] in b;
      assert b != [] && b[0] in a;
      if a[0] != b[0] {
        var i :| 0 < i < |a| && a[i] == b[0];
        var j :| 0 < j < |b| && b[j] == a[0];
        LexTransitive(a[0], b[0], a[0]);
        LexIrreflexive(a[0]);
      }
      forall x
        ensures x in a[1..] <==> x in b[1..]
      {
        if x in a[1..] {
          var i :| 1 <= i < |a| && a[i] == x;
          assert LexLess(a[0], x);
          LexIrreflexive(x);
          assert x in b;
        }
        if x in b[1..] {
          var j :| 1 <= j < |b| && b[j] == x;
          assert LexLess(b[0], x);
          LexIrreflexive(x);
          assert x in a;
        }
      }
      AscendingUnique(a[1..], b[1..]);
      assert a == [a[0]] + a[1..] && b == [b[0]] + b[1..];
    }
  }

  /** The loop over the records and the sort: the months any record adds, ascending, each once. */
  method AvailableMonths(data: seq<Ingest.Item>) returns (months: seq<string>)
    ensures Ascending(months) && |months| == |MonthsIn(data)|
    ensures forall m :: m in months <==> m in MonthsIn(data)
  {
    var found: set<string> := {};
    for i := 0 to |data|
      invariant found == MonthsIn(data[..i])
    {
      assert data[..i + 1][..i] == data[..i];
      var dataLeitura := data[i].dataLeitura;
      if dataLeitura != "" && '/' in dataLeitura {
        var parts := Split(dataLeitura, '/');
        if |parts| == 3 {
          found := found + {parts[1] + "/" + parts[2]};
        }
      }
    }
    assert data[..|data|] == data;
    months := SortedList(found);
  }

  /** The dictionary `get_available_months` returns. */
  datatype MonthsReply = MonthsReply(status: string, availableMonths: seq<string>, totalRecords: nat)

  /** `get_available_months(file)`: process the whole sheet, then list its months. */
  method GetAvailableMonths(filename: string, read: Result<Ingest.Table, string>, lib: Ingest.Library)
    returns (r: Result<MonthsReply, HttpError>)
    requires read.Ok? ==> Ingest.Rectangular(read.value)
    ensures !IsExcelName(filename) ==> r == Err(HttpError(BadRequest, "400: " + ExtensionMessage))
    ensures IsExcelName(filename) ==>
      var p := Ingest.Process(read, "", lib);
      && (p.Err? ==> r == Err(HttpError(BadRequest, p.error)))
      && (p.Ok? ==>
            && r.Ok? && r.value.status == "success"
            && r.value.totalRecords == |p.value.data|
            && Ascending(r.value.availableMonths)
            && (forall m :: m in r.value.availableMonths <==>
                  exists i :: 0 <= i < |p.value.data| && MonthOf(p.value.data[i].dataLeitura) == Some(m)))
  {
    if !IsExcelName(filename) {
      RewrapOwn(ExtensionMessage);
      return Err(Rewrap(Describe(HttpError(BadRequest, ExtensionMessage))));
    }
    var result := Ingest.ProcessExcelContent(read, "", lib);
    if result.Err? {
      return Err(Rewrap(result.error));
    }
    var data := result.value.data;
    var months := AvailableMonths(data);
    forall m
      ensures m in months <==> exists i :: 0 <= i < |data| && MonthOf(data[i].dataLeitura) == Some(m)
    {
      MonthsInSpec(data, m);
    }
    r := Ok(MonthsReply("success", months, |data|));
  }
}
