/**
 * The scans of lab4script.py over a firewall / authentication log, taken as a
 * sequence of lines: the destination-port tally, the selection of high-traffic
 * ports in `main`, the destination-port and invalid-user report rows, and the
 * source-IP log.
 */
module Lab4Script {
  import opened Wrappers
  import opened Text
  import opened Lines
  import opened Fields

  // ================================================================ port tally

  /** How many lines `tally_port_traffic` counts under `port`. */
  function CountPort(lines: seq<string>, port: nat): nat
    decreases |lines|
  {
    if lines == [] then 0
    else CountPort(lines[..|lines| - 1], port) + (if DptPort(lines[|lines| - 1]) == Some(port) then 1 else 0)
  }

  /** How many lines carry a `DPT=<digits>` marker at all. */
  function CountMarked(lines: seq<string>): nat
    decreases |lines|
  {
    if lines == [] then 0
    else CountMarked(lines[..|lines| - 1]) + (if DptPort(lines[|lines| - 1]).Some? then 1 else 0)
  }

  ghost function PickKey(m: map<nat, nat>): nat
    requires m != map[]
  {
    var k :| k in m; k
  }

  /** The sum of the counts of a tally. */
  ghost function MapSum(m: map<nat, nat>): nat
    decreases m.Keys
  {
    if m == map[] then 0
    else
      var k := PickKey(m);
      m[k] + MapSum(m - {k})
  }

  /** The sum does not depend on which key is taken out first. */
  lemma {:induction false} MapSumRemove(m: map<nat, nat>, k: nat)
    requires k in m
    ensures MapSum(m) == m[k] + MapSum(m - {k})
    decreases m.Keys
  {
    var j := PickKey(m);
    if j != k {
      MapSumRemove(m - {j}, k);
      MapSumRemove(m - {k}, j);
      assert m - {j} - {k} == m - {k} - {j};
    }
  }

  /** Counting one more line. */
  lemma CountSnoc(lines: seq<string>, i: nat)
    requires i < |lines|
    ensures forall p: nat :: CountPort(lines[..i + 1], p) == CountPort(lines[..i], p) + if DptPort(lines[i]) == Some(p) then 1 else 0
    ensures CountMarked(lines[..i + 1]) == CountMarked(lines[..i]) + if DptPort(lines[i]).Some? then 1 else 0
  {
    assert lines[..i + 1][..i] == lines[..i];
  }

  /** Counting one more line under `port`: its count goes up by one, or it enters with count 1. */
  function Bump(tally: map<nat, nat>, port: nat): (t: map<nat, nat>)
    ensures t.Keys == tally.Keys + {port}
  {
    if port in tally then tally[port := tally[port] + 1] else tally[port := 1]
  }

  /** Incrementing one port's count, or adding it with count 1, adds one to the sum. */
  lemma MapSumBump(m: map<nat, nat>, port: nat)
    ensures MapSum(Bump(m, port)) == MapSum(m) + 1
  {
    var t := Bump(m, port);
    MapSumRemove(t, port);
    if port in m {
      MapSumRemove(m, port);
      assert t - {port} == m - {port};
    } else {
      assert t - {port} == m;
    }
  }

  /** `tally` holds, for every port, how many of `lines` are counted under it, and nothing else. */
  ghost predicate Tallies(lines: seq<string>, tally: map<nat, nat>) {
    && (forall p :: p in tally <==> CountPort(lines, p) > 0)
    && (forall p :: p in tally ==> tally[p] == CountPort(lines, p))
    && MapSum(tally) == CountMarked(lines)
  }

  /** One step of the tally loop keeps the tally exact. */
  lemma TallyStep(lines: seq<string>, i: nat, tally: map<nat, nat>)
    requires i < |lines| && Tallies(lines[..i], tally)
    ensures match DptPort(lines[i])
      case None => Tallies(lines[..i + 1], tally)
      case Some(port) => Tallies(lines[..i + 1], Bump(tally, port))
  {
    CountSnoc(lines, i);
    if DptPort(lines[i]).Some? {
      MapSumBump(tally, DptPort(lines[i]).value);
    }
  }

  /**
   * `tally_port_traffic`: for each line the leftmost `DPT=` followed by digits
   * gives a port (its digit run read as an integer), which is counted once.
   */
  method TallyPortTraffic(lines: seq<string>) returns (tally: map<nat, nat>)
    ensures forall p :: p in tally <==> CountPort(lines, p) > 0
    ensures forall p :: p in tally ==> tally[p] == CountPort(lines, p) && tally[p] >= 1
    ensures MapSum(tally) == CountMarked(lines)
  {
    tally := map[];
    var i := 0;
    while i < |lines|
      invariant 0 <= i <= |lines|
      invariant Tallies(lines[..i], tally)
    {
      TallyStep(lines, i, tally);
      var found := MarkerRun(lines[i], "DPT=", IsDigit);
      if found.Some? {
        var port := ParseDigits(found.value);
        if port in tally {
          tally := tally[port := tally[port] + 1];
        } else {
          tally := tally[port := 1];
        }
      }
      i := i + 1;
    }
    assert lines[..i] == lines;
  }

  // ================================================================ report rows

  /** A failed report: the index of the line and the search that found nothing there. */
  datatype LineError = LineError(line: nat, field: Field)

  /** A report as data: the file it goes to, its header row and its data rows. */
  datatype Report<R> = Report(fileName: string, header: seq<string>, rows: seq<R>)

  /** Every selected line yields a row. */
  predicate AllExtract<R>(lines: seq<string>, select: string -> bool, extract: string -> Result<R, Field>) {
    forall j :: 0 <= j < |lines| && select(lines[j]) ==> extract(lines[j]).Success?
  }

  /** `rows` holds, in file order, the row of each selected line. */
  predicate RowsFor<R(==)>(lines: seq<string>, select: string -> bool, extract: string -> Result<R, Field>, rows: seq<R>) {
    var kept := Filter(lines, select);
    |rows| == |kept| && forall k :: 0 <= k < |kept| ==> extract(kept[k]) == Success(rows[k])
  }

  /** `e` names the first selected line that yields no row, and the search that failed on it. */
  predicate FirstFailure<R(==)>(lines: seq<string>, select: string -> bool, extract: string -> Result<R, Field>, e: LineError) {
    && e.line < |lines| && select(lines[e.line]) && extract(lines[e.line]) == Failure(e.field)
    && forall j :: 0 <= j < e.line && select(lines[j]) ==> extract(lines[j]).Success?
  }

  /** Scanning one more line: it adds its row when selected, and nothing otherwise. */
  lemma RowsSnoc<R>(lines: seq<string>, x: string, select: string -> bool, extract: string -> Result<R, Field>, rows: seq<R>)
    requires AllExtract(lines, select, extract) && RowsFor(lines, select, extract, rows)
    ensures AllExtract(lines + [x], select, extract) <==> (select(x) ==> extract(x).Success?)
    ensures select(x) && extract(x).Success? ==> RowsFor(lines + [x], select, extract, rows + [extract(x).value])
    ensures !select(x) ==> RowsFor(lines + [x], select, extract, rows)
  {
    FilterSnoc(lines, x, select);
    var s := lines + [x];
    assert forall j :: 0 <= j < |lines| ==> s[j] == lines[j];
    if select(x) && extract(x).Success? {
      var kept := Filter(lines, select);
      var kept' := kept + [x];
      var rows' := rows + [extract(x).value];
      assert forall k :: 0 <= k < |kept| ==> kept'[k] == kept[k] && rows'[k] == rows[k];
    }
  }

  /**
   * The loop of both report builders: append the row of every selected line, or
   * stop at the first selected line on which a search finds nothing (where the
   * script raises on `.group()` of `None`).
   */
  method CollectRows<R(==)>(lines: seq<string>, select: string -> bool, extract: string -> Result<R, Field>)
    returns (r: Result<seq<R>, LineError>)
    ensures r.Success? <==> AllExtract(lines, select, extract)
    ensures r.Success? ==> RowsFor(lines, select, extract, r.value)
    ensures r.Failure? ==> FirstFailure(lines, select, extract, r.error)
  {
    var rows: seq<R> := [];
    var i := 0;
    while i < |lines|
      invariant 0 <= i <= |lines|
      invariant AllExtract(lines[..i], select, extract)
      invariant RowsFor(lines[..i], select, extract, rows)
    {
      RowsSnoc(lines[..i], lines[i], select, extract, rows);
      assert lines[..i + 1] == lines[..i] + [lines[i]];
      if select(lines[i]) {
        var row := extract(lines[i]);
        if row.Failure? {
          assert forall j :: 0 <= j < i ==> lines[..i][j] == lines[j];
          return Failure(LineError(i, row.error));
        }
        rows := rows + [row.value];
      }
      i := i + 1;
    }
    assert lines[..i] == lines;
    return Success(rows);
  }

  // ================================================================ destination-port report

  /** Python's `f'DPT={port_number}' in line`: a substring test, not a number comparison. */
  function PortSelector(port: nat): string -> bool {
    line => Contains(line, "DPT=" + NatToString(port))
  }

  function PortReportFileName(port: nat): string {
    "destination_port_" + NatToString(port) + "_report.csv"
  }

  const PortReportHeader: seq<string> :=
    ["Date", "Time", "Source IP", "Destination IP", "Source Port", "Destination Port"]

  /**
   * `generate_port_traffic_report`: one row per line containing `DPT=<port>`, in
   * file order; or the first such line that lacks a field.
   */
  method GeneratePortTrafficReport(lines: seq<string>, port: nat) returns (r: Result<Report<PortRow>, LineError>)
    ensures r.Success? <==> AllExtract(lines, PortSelector(port), PortFields)
    ensures r.Success? ==> r.value.fileName == PortReportFileName(port) && r.value.header == PortReportHeader
    ensures r.Success? ==> RowsFor(lines, PortSelector(port), PortFields, r.value.rows)
    ensures r.Failure? ==> FirstFailure(lines, PortSelector(port), PortFields, r.error)
  {
    var rows := CollectRows(lines, PortSelector(port), PortFields);
    if rows.Failure? {
      return Failure(rows.error);
    }
    return Success(Report(PortReportFileName(port), PortReportHeader, rows.value));
  }

  /** A line selected for `port` always has a `DPT=<digits>` marker, so it never fails on that search. */
  lemma SelectedLineHasDpt(line: string, port: nat)
    requires PortSelector(port)(line)
    ensures DptPort(line).Some?
    ensures PortFields(line) != Failure(DestinationPort)
  {
    var sub := "DPT=" + NatToString(port);
    var k :| 0 <= k <= |line| - |sub| && OccursAt(line, sub, k);
    assert line[k..k + 4] == sub[..4];
    assert line[k + 4] == sub[4];
    assert MarkerAt(line, "DPT=", IsDigit, k);
  }

  /**
   * The selection is a substring test: a line with `DPT=220` is selected for port
   * 22, its Destination Port value is "220", and the tally counts it under 220.
   */
  lemma LongerPortSelected()
    ensures PortSelector(22)("DPT=220")
    ensures DstPort("DPT=220") == Some("220") && DptPort("DPT=220") == Some(220)
  {
    var line := "DPT=220";
    assert "DPT=" + NatToString(22) == "DPT=22";
    assert OccursAt(line, "DPT=22", 0);
    assert MarkerFrom(line, "DPT=", IsDigit, 0) == Some(0);
    RunEndsAt(line, 4, 3, IsDigit);
    assert line[4..7] == "220";
    assert "220"[..2] == "22" && "22"[..1] == "2";
  }

  /**
   * Leading zeros collapse when the port is read: `DPT=022` is counted under 22,
   * yet the report for 22 does not select the line.
   */
  lemma LeadingZeroCountedNotSelected()
    ensures DptPort("DPT=022") == Some(22)
    ensures !PortSelector(22)("DPT=022")
  {
    var line := "DPT=022";
    assert "DPT=" + NatToString(22) == "DPT=22";
    assert MarkerFrom(line, "DPT=", IsDigit, 0) == Some(0);
    RunEndsAt(line, 4, 3, IsDigit);
    assert line[4..7] == "0" + "22";
    ParseLeadingZero("22");
    assert "22"[..1] == "2";
    assert !OccursAt(line, "DPT=22", 0) by {
      assert line[0..6][4] == '0';
    }
    assert !OccursAt(line, "DPT=22", 1) by {
      assert line[1..7][0] == 'P';
    }
  }

  /** The digits after the leftmost `DPT=` marker have no leading zeros. */
  predicate CanonicalDpt(line: string) {
    DstPort(line).Some? ==> Canonical(DstPort(line).value)
  }

  lemma CountedLineSelected(line: string, port: nat)
    requires CanonicalDpt(line) && DptPort(line) == Some(port)
    ensures PortSelector(port)(line)
  {
    var d := DstPort(line).value;
    NatToStringParse(d);
  }

  /**
   * When no line writes its port with leading zeros, the report for a port has at
   * least as many rows as the tally counts for it (more when longer ports such
   * as 220 share its digits).
   */
  lemma {:induction false} ReportCoversTally(lines: seq<string>, port: nat)
    requires forall j :: 0 <= j < |lines| ==> CanonicalDpt(lines[j])
    ensures CountPort(lines, port) <= |Filter(lines, PortSelector(port))|
    decreases |lines|
  {
    if lines != [] {
      var init := lines[..|lines| - 1];
      var last := lines[|lines| - 1];
      assert forall j :: 0 <= j < |init| ==> init[j] == lines[j];
      ReportCoversTally(init, port);
      if DptPort(last) == Some(port) {
        CountedLineSelected(last, port);
      }
    }
  }

  // ================================================================ main: the high-traffic ports

  /** The count from which `main` writes a destination-port report. */
  const ReportThreshold: nat := 100

  /**
   * Step 10 of `main`: tally the log and generate the report of every port
   * counted at least `ReportThreshold` times; the run stops at the first report
   * that fails.
   */
  method GenerateHighTrafficReports(lines: seq<string>) returns (r: Result<map<nat, Report<PortRow>>, LineError>)
    ensures r.Success? <==>
      forall p :: CountPort(lines, p) >= ReportThreshold ==> AllExtract(lines, PortSelector(p), PortFields)
    ensures r.Success? ==> forall p :: p in r.value <==> CountPort(lines, p) >= ReportThreshold
    ensures r.Success? ==> forall p :: p in r.value ==>
      && r.value[p].fileName == PortReportFileName(p)
      && r.value[p].header == PortReportHeader
      && RowsFor(lines, PortSelector(p), PortFields, r.value[p].rows)
    ensures r.Failure? ==> exists p :: CountPort(lines, p) >= ReportThreshold && FirstFailure(lines, PortSelector(p), PortFields, r.error)
  {
    var tally := TallyPortTraffic(lines);
    var todo := tally.Keys;
    var reports: map<nat, Report<PortRow>> := map[];
    while todo != {}
      invariant todo <= tally.Keys
      invariant forall p :: p in reports <==> p in tally && p !in todo && tally[p] >= ReportThreshold
      invariant forall p :: p in reports ==>
        && reports[p].fileName == PortReportFileName(p)
        && reports[p].header == PortReportHeader
        && RowsFor(lines, PortSelector(p), PortFields, reports[p].rows)
      invariant forall p :: p in tally && p !in todo && tally[p] >= ReportThreshold ==>
        AllExtract(lines, PortSelector(p), PortFields)
      decreases todo
    {
      var port :| port in todo;
      if tally[port] >= ReportThreshold {
        var report := GeneratePortTrafficReport(lines, port);
        if report.Failure? {
          return Failure(report.error);
        }
        reports := reports[port := report.value];
      }
      todo := todo - {port};
    }
    return Success(reports);
  }

  // ================================================================ invalid-user report

  const InvalidUserFileName: string := "invalid_users.csv"

  const InvalidUserHeader: seq<string> := ["Date", "Time", "Username", "IP Address"]

  /**
   * `generate_invalid_user_report`: one row per line whose lower-cased text
   * contains "invalid user", in file order; or the first such line that lacks a
   * field.
   */
  method GenerateInvalidUserReport(lines: seq<string>) returns (r: Result<Report<UserRow>, LineError>)
    ensures r.Success? <==> AllExtract(lines, SelectsInvalidUser, UserFields)
    ensures r.Success? ==> r.value.fileName == InvalidUserFileName && r.value.header == InvalidUserHeader
    ensures r.Success? ==> RowsFor(lines, SelectsInvalidUser, UserFields, r.value.rows)
    ensures r.Failure? ==> FirstFailure(lines, SelectsInvalidUser, UserFields, r.error)
  {
    var rows := CollectRows(lines, SelectsInvalidUser, UserFields);
    if rows.Failure? {
      return Failure(rows.error);
    }
    return Success(Report(InvalidUserFileName, InvalidUserHeader, rows.value));
  }

  // ================================================================ source-IP log

  /** Python's `f'SRC={ip_address}' in line`. */
  function SourceSelector(ip: string): string -> bool {
    line => Contains(line, "SRC=" + ip)
  }

  /** `f'source_ip_{ip_address.replace(".", "_")}.log'`. */
  function SourceIpFileName(ip: string): (name: string)
    ensures |name| == |ip| + 14
    ensures name[..10] == "source_ip_" && name[|name| - 4..] == ".log"
    ensures forall i :: 0 <= i < |ip| ==> name[10 + i] == if ip[i] == '.' then '_' else ip[i]
    ensures forall i :: 10 <= i < |name| - 4 ==> name[i] != '.'
  {
    var name := "source_ip_" + ReplaceChar(ip, '.', '_') + ".log";
    assert forall i :: 10 <= i < |name| - 4 ==> name[i] == ReplaceChar(ip, '.', '_')[i - 10];
    name
  }

  datatype SourceIpLog = SourceIpLog(fileName: string, records: seq<string>)

  /**
   * `generate_source_ip_log`: the stripped lines containing `SRC=<ip>`, in file
   * order, for the file named after the address.
   */
  method GenerateSourceIpLog(lines: seq<string>, ip: string) returns (log: SourceIpLog)
    ensures log.fileName == SourceIpFileName(ip)
    ensures StrippedSelection(lines, SourceSelector(ip), log.records)
  {
    var keep := SourceSelector(ip);
    var strip := Strip;
    var records: seq<string> := [];
    var i := 0;
    while i < |lines|
      invariant 0 <= i <= |lines|
      invariant records == Selected(lines[..i], keep, strip)
    {
      SelectedSnoc(lines, i, keep, strip);
      if keep(lines[i]) {
        records := records + [strip(lines[i])];
      }
      i := i + 1;
    }
    assert lines[..i] == lines;
    SelectedIsMapped(lines, keep, strip);
    log := SourceIpLog(SourceIpFileName(ip), records);
  }
}
