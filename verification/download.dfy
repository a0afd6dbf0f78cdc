/**
 * Downloading one workbook from the activity map: the three requests of one
 * session, the decision on the body of the export response, and the run
 * over every request of the enumeration with its success and failure tally.
 * The network is an oracle: a function from the request sent to the reply.
 */
module Download {
  import opened Wrappers
  import opened Combinations

  newtype byte = x: int | 0 <= x < 256

  /** The bytes of an ASCII text (Python's `b'...'` literal). */
  function Ascii(s: string): (b: seq<byte>)
    requires forall i :: 0 <= i < |s| ==> s[i] as int < 128
    ensures |b| == |s| && forall i :: 0 <= i < |s| ==> b[i] as int == s[i] as int
  {
    seq(|s|, i requires 0 <= i < |s| => s[i] as int as byte)
  }

  const HtmlDoctype: seq<byte> := Ascii("<!doctype html>")
  const HtmlOpen: seq<byte> := Ascii("<html")
  /** The ZIP local file header signature, of which only the first two bytes "PK" are compared. */
  const ZipMagic: seq<byte> := [0x50, 0x4B]
  /** The eight-byte signature of an OLE2 compound file (legacy .xls). */
  const Ole2Magic: seq<byte> := [0xD0, 0xCF, 0x11, 0xE0, 0xA1, 0xB1, 0x1A, 0xE1]
  /** A body of this many bytes or fewer is refused as too small. */
  const MinExcelSize: nat := 1000

  /** Python's `bytes.startswith`. */
  predicate StartsWith(s: seq<byte>, prefix: seq<byte>) {
    |prefix| <= |s| && s[..|prefix|] == prefix
  }

  predicate IsHtml(content: seq<byte>) {
    StartsWith(content, HtmlDoctype) || StartsWith(content, HtmlOpen)
  }

  predicate HasExcelSignature(content: seq<byte>) {
    StartsWith(content, ZipMagic) || StartsWith(content, Ole2Magic)
  }

  /** What the export body turned out to be, in the order the checks are made. */
  datatype Verdict = HtmlPage | TooSmall | NotExcel | Excel

  /**
   * The decision on the body of the export response: an HTML page is refused
   * whatever its size; then a body of at most 1000 bytes; then the body must
   * start with "PK" or the OLE2 signature.
   */
  function Classify(content: seq<byte>): (v: Verdict)
    ensures v == HtmlPage <==> IsHtml(content)
    ensures v == TooSmall ==> |content| <= MinExcelSize
    ensures v == Excel ==> |content| > MinExcelSize && HasExcelSignature(content)
  {
    if IsHtml(content) then HtmlPage
    else if |content| <= MinExcelSize then TooSmall
    else if HasExcelSignature(content) then Excel
    else NotExcel
  }

  /**
   * The HTML check decides only how a refusal is reported: a body is
   * accepted exactly when it is larger than 1000 bytes and carries one of the
   * two signatures, because both signatures differ from '<' in their first byte.
   */
  lemma AcceptedExactlyWhenSigned(content: seq<byte>)
    ensures Classify(content) == Excel <==> |content| > MinExcelSize && HasExcelSignature(content)
  {
    FirstBytes(content);
  }

  /** The first byte of an HTML body is '<'; that of a signed body is 'P' or 0xD0. */
  lemma FirstBytes(content: seq<byte>)
    ensures IsHtml(content) ==> |content| > 0 && content[0] == 0x3C
    ensures HasExcelSignature(content) ==> |content| > 0 && (content[0] == 0x50 || content[0] == 0xD0)
  {
    if StartsWith(content, HtmlDoctype) {
      assert content[..|HtmlDoctype|][0] == HtmlDoctype[0];
    }
    if StartsWith(content, HtmlOpen) {
      assert content[..|HtmlOpen|][0] == HtmlOpen[0];
    }
    if StartsWith(content, ZipMagic) {
      assert content[..2][0] == ZipMagic[0];
    }
    if StartsWith(content, Ole2Magic) {
      assert content[..8][0] == Ole2Magic[0];
    }
  }

  /** The requests of one download session. */
  datatype Request =
    | MainPage
    | Submit(query: seq<(string, string)>)
    | ExcelExport(form: seq<(string, string)>)

  /** A reply: the request raised (connection error, timeout), or a status and a body. */
  datatype Reply = Raised | Response(status: int, content: seq<byte>)

  /** A workbook written to the output directory. */
  datatype SavedFile = SavedFile(name: string, content: seq<byte>)

  predicate IsOk(r: Reply) {
    r.Response? && r.status == 200
  }

  const FieldNames: seq<string> :=
    ["snatnav", "annee", "tgeo", "codegeo", "base", "ASO", "CAS", "typrgp", "DA", "GP", "racine", "GHM"]

  /** The fields that are always sent empty. */
  const BlankFields: set<string> := {"snatnav", "DA", "GP", "racine", "GHM"}

  /** The value of the first field named `key`. */
  function Lookup(fields: seq<(string, string)>, key: string): Option<string> {
    if fields == [] then None
    else if fields[0].0 == key then Some(fields[0].1)
    else Lookup(fields[1..], key)
  }

  /** In a list of fields whose names are all different, each field is found under its own name. */
  lemma {:induction false} LookupByName(fields: seq<(string, string)>, i: nat)
    requires i < |fields|
    requires forall a, b :: 0 <= a < b < |fields| ==> fields[a].0 != fields[b].0
    ensures Lookup(fields, fields[i].0) == Some(fields[i].1)
  {
    if i > 0 {
      LookupByName(fields[1..], i - 1);
    }
  }

  /**
   * The fields of the submit query and of the export form, which the source
   * builds twice with the same entries, in the order of `FieldNames`.
   */
  function FormFields(p: Params): (fields: seq<(string, string)>)
    ensures |fields| == |FieldNames| && forall i :: 0 <= i < |fields| ==> fields[i].0 == FieldNames[i]
  {
    [("snatnav", ""),
     ("annee", p.annee),
     ("tgeo", p.tgeo),
     ("codegeo", p.codegeo),
     ("base", p.base),
     ("ASO", p.aso.GetOr("")),
     ("CAS", p.cas.GetOr("")),
     ("typrgp", p.typrgp),
     ("DA", ""),
     ("GP", ""),
     ("racine", ""),
     ("GHM", "")]
  }

  /**
   * Each field of the form carries: the request's own year, geography, base
   * and grouping; the two filters, "" when absent; and "" in the five fields
   * the automation never fills.
   */
  lemma FormFieldsValues(p: Params)
    ensures forall key :: key in BlankFields ==> Lookup(FormFields(p), key) == Some("")
    ensures Lookup(FormFields(p), "ASO") == Some(p.aso.GetOr("")) && Lookup(FormFields(p), "CAS") == Some(p.cas.GetOr(""))
    ensures Lookup(FormFields(p), "annee") == Some(p.annee) && Lookup(FormFields(p), "tgeo") == Some(p.tgeo)
    ensures Lookup(FormFields(p), "codegeo") == Some(p.codegeo) && Lookup(FormFields(p), "base") == Some(p.base)
    ensures Lookup(FormFields(p), "typrgp") == Some(p.typrgp)
  {
    var fields := FormFields(p);
    assert forall a, b :: 0 <= a < b < |fields| ==> fields[a].0 != fields[b].0;
    forall i | 0 <= i < |fields|
      ensures Lookup(fields, fields[i].0) == Some(fields[i].1)
    {
      LookupByName(fields, i);
    }
    assert fields[0].0 == "snatnav" && fields[8].0 == "DA" && fields[9].0 == "GP";
    assert fields[10].0 == "racine" && fields[11].0 == "GHM";
    assert fields[1].0 == "annee" && fields[2].0 == "tgeo" && fields[3].0 == "codegeo" && fields[4].0 == "base";
    assert fields[5].0 == "ASO" && fields[6].0 == "CAS" && fields[7].0 == "typrgp";
  }

  /** The three requests of a complete session, in order. */
  function Protocol(p: Params): seq<Request> {
    [MainPage, Submit(FormFields(p)), ExcelExport(FormFields(p))]
  }

  /** A download succeeds when all three requests answer 200 and the export body is a workbook. */
  predicate Downloads(p: Params, server: Request -> Reply) {
    IsOk(server(MainPage)) &&
    IsOk(server(Submit(FormFields(p)))) &&
    IsOk(server(ExcelExport(FormFields(p)))) &&
    Classify(server(ExcelExport(FormFields(p))).content) == Excel
  }

  /**
   * How many requests a session sends: it stops after the first request
   * that raises or does not answer 200.
   */
  function Progress(p: Params, server: Request -> Reply): nat {
    if !IsOk(server(MainPage)) then 1
    else if !IsOk(server(Submit(FormFields(p)))) then 2
    else 3
  }

  /** Every request but the last one sent succeeded, and the last one failed unless all three were sent. */
  lemma ProgressStopsAtFirstFailure(p: Params, server: Request -> Reply)
    ensures 1 <= Progress(p, server) <= 3
    ensures forall k :: 0 <= k < Progress(p, server) - 1 ==> IsOk(server(Protocol(p)[k]))
    ensures Progress(p, server) < 3 ==> !IsOk(server(Protocol(p)[Progress(p, server) - 1]))
    ensures Downloads(p, server) ==> Progress(p, server) == 3
  {
  }

  /**
   * `download_excel_file`: visit the main page, submit the query, post the
   * export form with the same fields, then judge the body. Each step that
   * fails (non-200 or an exception) ends the attempt with false and sends
   * nothing more; only an accepted workbook is saved, under its generated name.
   */
  method DownloadExcelFile(p: Params, server: Request -> Reply)
    returns (ok: bool, sent: seq<Request>, saved: Option<SavedFile>)
    ensures sent == Protocol(p)[..Progress(p, server)]
    ensures ok <==> Downloads(p, server)
    ensures saved == if ok then Some(SavedFile(GenerateFilename(p), server(Protocol(p)[2]).content)) else None
  {
    sent := [MainPage];
    var mainPage := server(MainPage);
    if !IsOk(mainPage) {
      return false, sent, None;
    }
    var submitQuery := FormFields(p);
    sent := sent + [Submit(submitQuery)];
    var submitResponse := server(Submit(submitQuery));
    if !IsOk(submitResponse) {
      return false, sent, None;
    }
    var excelData := FormFields(p);
    sent := sent + [ExcelExport(excelData)];
    var response := server(ExcelExport(excelData));
    if !IsOk(response) {
      return false, sent, None;
    }
    match Classify(response.content)
    case Excel =>
      ok, saved := true, Some(SavedFile(GenerateFilename(p), response.content));
    case _ =>
      ok, saved := false, None;
  }

  /** The network as seen by the `i`-th attempt of a run. */
  function AttemptServer(server: (nat, Request) -> Reply, i: nat): Request -> Reply {
    req => server(i, req)
  }

  /** How many of the requests succeed, the `k`-th (from 1) meeting the network as `AttemptServer(server, k)`. */
  function Tally(cs: seq<Params>, server: (nat, Request) -> Reply): nat {
    if cs == [] then 0
    else Tally(cs[..|cs| - 1], server) + (if Downloads(cs[|cs| - 1], AttemptServer(server, |cs|)) then 1 else 0)
  }

  lemma {:induction false} TallyBounded(cs: seq<Params>, server: (nat, Request) -> Reply)
    ensures Tally(cs, server) <= |cs|
  {
    if cs != [] {
      TallyBounded(cs[..|cs| - 1], server);
    }
  }

  /** The workbooks a run over `cs` saves, in order. */
  function SavedFiles(cs: seq<Params>, server: (nat, Request) -> Reply): seq<SavedFile> {
    if cs == [] then []
    else
      var p, net := cs[|cs| - 1], AttemptServer(server, |cs|);
      SavedFiles(cs[..|cs| - 1], server)
        + if Downloads(p, net) then [SavedFile(GenerateFilename(p), net(ExcelExport(FormFields(p))).content)] else []
  }

  /**
   * One workbook is saved per successful download, and each is named after
   * a request of the run.
   */
  lemma {:induction false} SavedFilesOrigin(cs: seq<Params>, server: (nat, Request) -> Reply)
    ensures |SavedFiles(cs, server)| == Tally(cs, server)
    ensures forall m :: 0 <= m < |SavedFiles(cs, server)| ==>
      exists k :: 0 <= k < |cs| && SavedFiles(cs, server)[m].name == GenerateFilename(cs[k])
  {
    if cs != [] {
      var front := cs[..|cs| - 1];
      SavedFilesOrigin(front, server);
      var saved := SavedFiles(cs, server);
      forall m | 0 <= m < |saved|
        ensures exists k :: 0 <= k < |cs| && saved[m].name == GenerateFilename(cs[k])
      {
        if m < |SavedFiles(front, server)| {
          var k :| 0 <= k < |front| && SavedFiles(front, server)[m].name == GenerateFilename(front[k]);
          assert saved[m].name == GenerateFilename(cs[k]);
        } else {
          assert saved[m].name == GenerateFilename(cs[|cs| - 1]);
        }
      }
    }
  }

  /** When the requests of a run have pairwise different file names, so do the saved workbooks. */
  lemma {:induction false} SavedFilesDistinct(cs: seq<Params>, server: (nat, Request) -> Reply)
    requires forall a, b :: 0 <= a < b < |cs| ==> GenerateFilename(cs[a]) != GenerateFilename(cs[b])
    ensures forall a, b :: 0 <= a < b < |SavedFiles(cs, server)| ==>
      SavedFiles(cs, server)[a].name != SavedFiles(cs, server)[b].name
  {
    if cs != [] {
      var front := cs[..|cs| - 1];
      SavedFilesDistinct(front, server);
      SavedFilesOrigin(front, server);
      var saved, before := SavedFiles(cs, server), SavedFiles(front, server);
      forall a, b | 0 <= a < b < |saved|
        ensures saved[a].name != saved[b].name
      {
        if b >= |before| {
          var k :| 0 <= k < |front| && before[a].name == GenerateFilename(front[k]);
          assert saved[b].name == GenerateFilename(cs[|cs| - 1]);
          assert saved[a].name == GenerateFilename(cs[k]);
        }
      }
    }
  }

  /** Different positions of the enumeration have different file names. */
  lemma AllCombinationsNamesDistinct()
    ensures forall a, b :: 0 <= a < b < |AllCombinations()| ==>
      GenerateFilename(AllCombinations()[a]) != GenerateFilename(AllCombinations()[b])
  {
    forall a, b | 0 <= a < b < |AllCombinations()|
      ensures GenerateFilename(AllCombinations()[a]) != GenerateFilename(AllCombinations()[b])
    {
      if GenerateFilename(AllCombinations()[a]) == GenerateFilename(AllCombinations()[b]) {
        GeneratedFilenamesDistinct(a, b);
      }
    }
  }

  /** The download loop of `run_full_automation`, over any list of requests. */
  method DownloadAll(combinations: seq<Params>, server: (nat, Request) -> Reply)
    returns (successful: nat, failed: nat, saved: seq<SavedFile>)
    ensures successful + failed == |combinations|
    ensures successful == Tally(combinations, server)
    ensures saved == SavedFiles(combinations, server)
  {
    successful, failed, saved := 0, 0, [];
    for i := 0 to |combinations|
      invariant successful + failed == i
      invariant successful == Tally(combinations[..i], server)
      invariant saved == SavedFiles(combinations[..i], server)
    {
      var ok, _, file := DownloadExcelFile(combinations[i], AttemptServer(server, i + 1));
      assert combinations[..i + 1][..i] == combinations[..i];
      if ok {
        successful := successful + 1;
        saved := saved + [file.value];
      } else {
        failed := failed + 1;
      }
    }
    assert combinations[..|combinations|] == combinations;
  }

  /**
   * `run_full_automation`: one download attempt per request of the
   * enumeration, the `i`-th (from 1) meeting the network as
   * `AttemptServer(server, i)`, counted as a success or a failure. The
   * successes are the requests that download, successes and failures add up
   * to the 35 requests, and the saved workbooks all have different names.
   */
  method RunFullAutomation(server: (nat, Request) -> Reply)
    returns (successful: nat, failed: nat, saved: seq<SavedFile>)
    ensures successful + failed == |AllCombinations()| == 35
    ensures successful == Tally(AllCombinations(), server)
    ensures saved == SavedFiles(AllCombinations(), server)
    ensures |saved| == successful
    ensures forall a, b :: 0 <= a < b < |saved| ==> saved[a].name != saved[b].name
  {
    var combinations := GenerateAllCombinations();
    successful, failed, saved := DownloadAll(combinations, server);
    SavedFilesOrigin(combinations, server);
    AllCombinationsNamesDistinct();
    SavedFilesDistinct(combinations, server);
  }
}
