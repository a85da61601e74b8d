# Log analyser core, modelled in Dafny

This project models the line-scanning and field-extraction core of a small
firewall / authentication log analyser (`lab4script.py` and `log_utiliti.py`).
The log file is a `seq<string>` of lines, and every report is returned as data
instead of being written.

- **Port tally** (`tally_port_traffic`). Each line's leftmost `DPT=` followed by a
  digit yields a port: its maximal digit run read as an integer. The method
  counts the ports in a `map<nat, nat>`.
- **High-traffic selection** (`main`, step 10). A destination-port report is
  generated for every port counted at least 100 times.
- **Report rows** (`generate_port_traffic_report`, `generate_invalid_user_report`).
  The selected lines are turned into rows, in file order. A selected line that
  lacks a field gives an explicit `Failure` naming the line and the missing field.
  The script instead raises on `.group()` of `None`.
- **Source-IP log** (`generate_source_ip_log`). The stripped lines containing
  `SRC=<ip>`, in order, and the output file name.
- **Generic filter** (`filter_log_by_regex`). The regex engine is a parameter: a
  `compile` function from the pattern text and the case flag to a `Pattern` with
  a `search` test and a `findall` value.

Every fixed regex of `lab4script.py` is an explicit scanner:

- `Text.MarkerRun` is a search of the shape `MARKER(CLS+)`.
- `Fields.LeadingTimestamp` is the anchored `^\w+ \d+ \d+:\d+:\d+`.

Character classes, `lower()`, `strip()` and `split()` follow Python on ASCII.

Modules: `Wrappers` (Option, Result), `Text` (string operations),
`Lines` (selection in file order), `Fields` (per-line extraction),
`Lab4Script`, `LogUtiliti`.

Two behaviours of the script that a reader might not expect:

- The report's "Time" column is `date_time.split()[1]`: the day of the month,
  not the clock. For `Jan 2 03:04:05 ...` the row starts `Jan`, `2`.
  `Fields.DateAndTime` and `Fields.StampedBy` state this.
- A selected line that lacks a field aborts the whole report. The model returns
  the first such line as a `Failure`.

## Model

| member | source | states |
|---|---|---|
| `Text.Lower` | lab4script.py:81 | same length; each character lower-cased on its own; no upper-case letter remains |
| `Text.Run` | lab4script.py:49 | a greedy `CLS+` run: every character inside is in the class, and the character after it is not (or the line ends) |
| `Text.MarkerRun` | lab4script.py:49 | group 1 of `re.search(MARKER(CLS+))`. None exactly when no marker is followed by a class character. Otherwise the maximal run after the leftmost such marker, non-empty, and `MARKER + value` occurs in the line |
| `Text.NatToString` | lab4script.py:64 | `str(port)` is a non-empty digit string without leading zeros |
| `Text.ParseNatToString` | lab4script.py:51 | `int(str(p)) == p` |
| `Text.ParseDigits` | lab4script.py:51 | `int()` on a non-empty ASCII digit string, read left to right in base 10. It has no contract of its own; `Text.ParseNatToString`, `Text.NatToStringParse` and `Text.ParseLeadingZero` pin it as the inverse of `str()` with leading zeros ignored |
| `Text.NatToStringParse` | lab4script.py:51 | `str(int(d)) == d` for a digit string without leading zeros |
| `Text.ParseLeadingZero` | lab4script.py:51 | leading zeros collapse: `int("0" + d) == int(d)` |
| `Text.Strip` | lab4script.py:97 | `strip()` returns a slice of the line that begins and ends with non-whitespace; everything around the slice is whitespace |
| `Text.Split` | lab4script.py:71 | every piece of `split()` is a non-empty whitespace-free run; there are no pieces exactly when the string is all whitespace |
| `Text.SplitGaps` | lab4script.py:71 | the string is the pieces of `split()`, in order, with whitespace gaps around them and a non-empty gap between any two pieces, so the pieces are exactly its maximal non-whitespace runs |
| `Text.SplitThree` | lab4script.py:71 | three whitespace-free words joined by single spaces split back into those three words |
| `Text.ReplaceChar` | lab4script.py:99 | `replace(".", "_")` keeps the length; every `.` becomes `_` and every other character stays |
| `Lines.Filter` | log_utiliti.py:28-30 | the selection is no longer than the input; each element kept is in the input and passes the test |
| `Lines.KeptPositions` | log_utiliti.py:28-30 | one position per kept line, each a valid index of the input |
| `Lines.KeptPositionsIndex` | log_utiliti.py:28-30 | the k-th kept line is the input line at the k-th kept position |
| `Lines.KeptPositionsIncrease` | log_utiliti.py:28-30 | the kept positions strictly increase, so the selection keeps file order |
| `Lines.KeptPositionsExact` | log_utiliti.py:28-30 | a line passes the test exactly when its position is among the kept positions |
| `Lines.SelectedIsMapped` | log_utiliti.py:28-30 | the one-line-at-a-time scan yields the image of each filtered line, in order and nothing else |
| `Fields.LeadingTimestamp` | lab4script.py:65 | the anchored `^\w+ \d+ \d+:\d+:\d+` search (also at line 82), returning where each piece of the match ends. It has no contract of its own; `Fields.TimestampScannerIsRegex` pins it |
| `Fields.DptPort` | lab4script.py:49-51 | the key a line is tallied under: `int()` of group 1 of the leftmost `DPT=(\d+)` match, None when there is no such match. It is `Text.MarkerRun` followed by `Text.ParseDigits`, and their contracts and lemmas pin it |
| `Fields.SelectsInvalidUser` | lab4script.py:81 | a line is selected exactly when "invalid user" occurs in its lower-cased text. It has no contract of its own; `Text.Lower` pins the lower-casing |
| `Fields.TimestampScannerIsRegex` | lab4script.py:65 | the scanner returns a match exactly when the anchored timestamp regex matches there, with its greedy final digit run |
| `Fields.SplitTimestamp` | lab4script.py:71 | `date_time.split()` is [leading word, day digits, `h:m:s`] |
| `Fields.DateAndTime` | lab4script.py:71 | Date is the leading word of the match; Time is the day-of-month digits |
| `Fields.PortFields` | lab4script.py:65-71 | the row fails on the first missing field, in the order timestamp, SRC, DST, SPT, DPT, and succeeds exactly when all five are found. Then Date and Time begin the line, each followed by one space. The four values are the leftmost-maximal runs after `SRC=`, `DST=`, `SPT=` and `DPT=` |
| `Fields.PortRowValuesInLine` | lab4script.py:66-69 | every row value reappears in the line right after its marker. IPs are whitespace-free; ports are digit strings. The Destination Port parses to the port the tally counts the line under |
| `Fields.UserFields` | lab4script.py:82-86 | the row fails on the first missing field, in the order timestamp, `invalid user `, `from `, and succeeds exactly when all three are found. Date and Time come from the original line; user name and host come from the lower-cased line |
| `Fields.UserRowIsLowerCase` | lab4script.py:83-84 | user name and host have no upper-case letter and are non-empty and whitespace-free. Each follows its marker in the lower-cased line |
| `Lab4Script.TallyPortTraffic` | lab4script.py:44-57 | a port is a key exactly when some line's leftmost `DPT=<digits>` parses to it. Its count is the number of such lines, at least 1. The counts sum to the number of lines carrying a marker |
| `Lab4Script.CollectRows` | lab4script.py:60-71 | success exactly when every selected line yields a row. Rows are in file order, one per selected line. On failure, the error names the first selected line without a row and its missing field |
| `Lab4Script.GeneratePortTrafficReport` | lab4script.py:59-74 | one row per line containing the substring `DPT=<port>`, in file order. File `destination_port_<port>_report.csv` with the six-column header. Otherwise the first failing line |
| `Lab4Script.PortSelector` | lab4script.py:64 | a line is selected for a port exactly when `DPT=` followed by `str(port)` occurs in it as a substring, not when its DPT value equals the port. It has no contract of its own; `Lab4Script.SelectedLineHasDpt`, `Lab4Script.LongerPortSelected` and `Lab4Script.LeadingZeroCountedNotSelected` state what that test does and does not select |
| `Lab4Script.SelectedLineHasDpt` | lab4script.py:64-69 | a line selected for a port always has a `DPT=<digits>` marker, so its row never fails on the DPT search |
| `Lab4Script.LongerPortSelected` | lab4script.py:64 | a `DPT=220` line is selected for port 22; its Destination Port value is "220" and it is tallied under 220 |
| `Lab4Script.LeadingZeroCountedNotSelected` | lab4script.py:49-51 | `DPT=022` is tallied under 22, yet the report for 22 does not select it |
| `Lab4Script.ReportCoversTally` | lab4script.py:49-64 | if no line writes its port with leading zeros, the report for a port has at least as many rows as the tally counts for it |
| `Lab4Script.GenerateHighTrafficReports` | lab4script.py:31-34 | reports exist for exactly the ports counted at least 100 times, each with its file name, the six-column header and its rows. The run fails exactly when one of those reports fails |
| `Lab4Script.GenerateInvalidUserReport` | lab4script.py:76-89 | one row per line whose lower-cased text contains "invalid user", in file order. File `invalid_users.csv` with the four-column header. Otherwise the first failing line |
| `Lab4Script.SourceIpFileName` | lab4script.py:99 | `source_ip_` + the address with every `.` replaced by `_` + `.log`; no `.` except the extension's |
| `Lab4Script.GenerateSourceIpLog` | lab4script.py:91-101 | the records are the stripped lines containing `SRC=<ip>`, in input order, with the derived file name |
| `LogUtiliti.CaseLabel` | log_utiliti.py:21-38 | the summary says "case-insensitive" exactly when the case flag is set, and "case-sensitive" otherwise |
| `LogUtiliti.FilterLogByRegex` | log_utiliti.py:20-41 | the records are the stripped lines on which the search succeeds, in file order. `captured` has one entry per record, at the same index, taken from the stripped line. No more records than lines. The summary count equals the number of records |
| `LogUtiliti.RecordsAreMatchingLines` | log_utiliti.py:28-30 | the k-th record is the stripped line at the k-th matching position; the positions increase; a line matches exactly when its position is listed |

## Left out

- Reading the log file and writing the CSV and `.log` files. The model takes the
  lines and returns the rows, header and file name as data. The lines are taken as
  given, with or without a line terminator.
- `get_log_file_path_from_cmd_line` (log_utiliti.py:4-18): command-line arguments,
  the file-existence probe and `sys.exit`.
- The `ImportError` fallback (lab4script.py:4-8).
- pandas `DataFrame` construction and `to_csv` (lab4script.py:73-74, 88-89).
- Every `print` (lab4script.py:14-30, log_utiliti.py:33-39). The summary keeps
  only its count and case wording; the diagnostic `filter_log_by_regex` calls in
  `main` (lab4script.py:15-27) only print.
- Python's general regex engine in `filter_log_by_regex`. A pattern is known only
  through its `search` test and `findall` value. A malformed pattern raising at
  compile time is not modelled.
- Unicode: `\w`, `\d`, `\s`, `lower()`, `strip()` and `split()` follow Python on
  ASCII characters only.
- Lab4Script.GenerateHighTrafficReports: visits the ports in an unspecified order,
  not in the dict's first-seen order. When several high-traffic reports would
  fail, the model promises only that the error is the first failure of one of
  them. The script reports the first such port in first-seen order, and it keeps
  the report files written before the crash.
- The failure value of a report: the script's exception carries no line index; the model
  adds the index of the failing line.
- Lab4Script.TallyPortTraffic: Python's `int()` limit on the number of digits it
  converts (a `ValueError` above 4300 digits by default) is not modelled; the
  model reads a digit run of any length.
