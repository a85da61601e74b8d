/**
 * The per-line field extraction of lab4script.py: the leading timestamp, the
 * `SRC=` / `DST=` / `SPT=` / `DPT=` values of a firewall line, and the user
 * name and host of an "invalid user" line. Every regex of the script is a
 * fixed pattern, written here as an explicit scanner.
 */
module Fields {
  import opened Wrappers
  import opened Text

  /**
   * Where the pieces of a match of `^\w+ \d+ \d+:\d+:\d+` end: the word at `w`,
   * the day at `d`, the hours at `h`, the minutes at `m` and the seconds, which
   * end the match, at `e`.
   */
  datatype Bounds = Bounds(w: nat, d: nat, h: nat, m: nat, e: nat)

  /** `s[a..b]` is a non-empty run of `cls` characters followed by `sep`. */
  predicate RunThen(s: string, a: nat, b: nat, cls: char -> bool, sep: char) {
    a < b < |s| && (forall k :: a <= k < b ==> cls(s[k])) && s[b] == sep
  }

  /**
   * `b` delimits the match `re.search(r'^\w+ \d+ \d+:\d+:\d+', line)` returns: the
   * pieces are non-empty runs of their classes, separated by the literal space,
   * space, colon and colon, starting at the start of the line, and the greedy
   * last `\d+` cannot be extended.
   */
  predicate IsTimestampMatch(line: string, b: Bounds) {
    && RunThen(line, 0, b.w, IsWordChar, ' ')
    && RunThen(line, b.w + 1, b.d, IsDigit, ' ')
    && RunThen(line, b.d + 1, b.h, IsDigit, ':')
    && RunThen(line, b.h + 1, b.m, IsDigit, ':')
    && b.m + 1 < b.e <= |line| && (forall k :: b.m + 1 <= k < b.e ==> IsDigit(line[k]))
    && (b.e == |line| || !IsDigit(line[b.e]))
  }

  /**
   * The anchored timestamp scanner. A word run must be followed by a literal
   * space and a digit run by the next separator, so each run is maximal and no
   * backtracking is needed.
   */
  function LeadingTimestamp(line: string): Option<Bounds> {
    var w := Run(line, 0, IsWordChar);
    if w == 0 || w == |line| || line[w] != ' ' then None else
    var d := Run(line, w + 1, IsDigit);
    if d == w + 1 || d == |line| || line[d] != ' ' then None else
    var h := Run(line, d + 1, IsDigit);
    if h == d + 1 || h == |line| || line[h] != ':' then None else
    var m := Run(line, h + 1, IsDigit);
    if m == h + 1 || m == |line| || line[m] != ':' then None else
    var e := Run(line, m + 1, IsDigit);
    if e == m + 1 then None else
    Some(Bounds(w, d, h, m, e))
  }

  lemma ScannedIsMatch(line: string)
    requires LeadingTimestamp(line).Some?
    ensures IsTimestampMatch(line, LeadingTimestamp(line).value)
  {
  }

  lemma RunThenEnds(s: string, a: nat, b: nat, cls: char -> bool, sep: char)
    requires RunThen(s, a, b, cls, sep) && !cls(sep)
    ensures Run(s, a, cls) == b
  {
    RunEndsAt(s, a, b - a, cls);
  }

  lemma MatchRuns(line: string, b: Bounds)
    requires IsTimestampMatch(line, b)
    ensures Run(line, 0, IsWordChar) == b.w
    ensures Run(line, b.w + 1, IsDigit) == b.d
    ensures Run(line, b.d + 1, IsDigit) == b.h
    ensures Run(line, b.h + 1, IsDigit) == b.m
    ensures Run(line, b.m + 1, IsDigit) == b.e
  {
    RunThenEnds(line, 0, b.w, IsWordChar, ' ');
    RunThenEnds(line, b.w + 1, b.d, IsDigit, ' ');
    RunThenEnds(line, b.d + 1, b.h, IsDigit, ':');
    RunThenEnds(line, b.h + 1, b.m, IsDigit, ':');
    RunEndsAt(line, b.m + 1, b.e - b.m - 1, IsDigit);
  }

  lemma MatchIsScanned(line: string, b: Bounds)
    requires IsTimestampMatch(line, b)
    ensures LeadingTimestamp(line) == Some(b)
  {
    MatchRuns(line, b);
  }

  /** The scanner returns exactly the match the anchored regex finds, and None when there is none. */
  lemma TimestampScannerIsRegex(line: string, b: Bounds)
    ensures LeadingTimestamp(line) == Some(b) <==> IsTimestampMatch(line, b)
  {
    if LeadingTimestamp(line) == Some(b) {
      ScannedIsMatch(line);
    }
    if IsTimestampMatch(line, b) {
      MatchIsScanned(line, b);
    }
  }

  lemma ClockIsNonSpace(line: string, b: Bounds)
    requires IsTimestampMatch(line, b)
    ensures All(line[b.d + 1..b.e], IsNonSpace)
  {
    var c := line[b.d + 1..b.e];
    forall i | 0 <= i < |c| ensures IsNonSpace(c[i]) {
      assert c[i] == line[b.d + 1 + i];
    }
  }

  lemma MatchedText(line: string, b: Bounds)
    requires IsTimestampMatch(line, b)
    ensures line[..b.e] == line[..b.w] + (" " + (line[b.w + 1..b.d] + (" " + line[b.d + 1..b.e])))
  {
    var word, day, clock := line[..b.w], line[b.w + 1..b.d], line[b.d + 1..b.e];
    assert line[b.d..b.e] == " " + clock by {
      assert line[b.d..b.d + 1] == " ";
      assert line[b.d..b.e] == line[b.d..b.d + 1] + clock;
    }
    assert line[b.w + 1..b.e] == day + line[b.d..b.e];
    assert line[b.w..b.e] == " " + line[b.w + 1..b.e] by {
      assert line[b.w..b.w + 1] == " ";
      assert line[b.w..b.e] == line[b.w..b.w + 1] + line[b.w + 1..b.e];
    }
    assert line[..b.e] == word + line[b.w..b.e];
  }

  /**
   * `date_time.split()`: the match splits into the word, the day, and the clock
   * `h:m:s`.
   */
  lemma SplitTimestamp(line: string, b: Bounds)
    requires IsTimestampMatch(line, b)
    ensures Split(line[..b.e]) == [line[..b.w], line[b.w + 1..b.d], line[b.d + 1..b.e]]
  {
    MatchedText(line, b);
    ClockIsNonSpace(line, b);
    SplitThree(line[..b.w], line[b.w + 1..b.d], line[b.d + 1..b.e]);
  }

  /**
   * `date_time.split()[0]` and `date_time.split()[1]`, the Date and Time columns:
   * the leading word and the day of the month (the clock is the third piece and
   * is not kept).
   */
  function DateAndTime(line: string, b: Bounds): (r: (string, string))
    requires IsTimestampMatch(line, b)
    ensures r.0 == line[..b.w] && r.1 == line[b.w + 1..b.d]
  {
    SplitTimestamp(line, b);
    var parts := Split(line[..b.e]);
    (parts[0], parts[1])
  }

  /** The regex whose `.group(...)` access raised, for a line that cannot give a row. */
  datatype Field = Timestamp | SourceIp | DestinationIp | SourcePort | DestinationPort | Username | FromHost

  datatype PortRow = PortRow(date: string, time: string, srcIp: string, dstIp: string, srcPort: string, dstPort: string)

  datatype UserRow = UserRow(date: string, time: string, username: string, ipAddress: string)

  function SrcIp(line: string): Option<string> { MarkerRun(line, "SRC=", IsNonSpace) }
  function DstIp(line: string): Option<string> { MarkerRun(line, "DST=", IsNonSpace) }
  function SrcPort(line: string): Option<string> { MarkerRun(line, "SPT=", IsDigit) }
  function DstPort(line: string): Option<string> { MarkerRun(line, "DPT=", IsDigit) }

  /** The destination port `re.search(r'DPT=(\d+)', line)` yields, as `int` reads it. */
  function DptPort(line: string): Option<nat> {
    match DstPort(line)
    case None => None
    case Some(d) => Some(ParseDigits(d))
  }

  /** The Date and Time of a row: the leading word, one space, the day digits, one space. */
  predicate StampedBy(line: string, date: string, time: string) {
    && |date| > 0 && All(date, IsWordChar)
    && |time| > 0 && All(time, IsDigit)
    && IsPrefix(date + " " + time + " ", line)
  }

  lemma StampPrefix(line: string, b: Bounds)
    requires IsTimestampMatch(line, b)
    ensures StampedBy(line, line[..b.w], line[b.w + 1..b.d])
  {
    var p := line[..b.w] + " " + line[b.w + 1..b.d] + " ";
    assert line[..b.d + 1] == line[..b.w] + line[b.w..b.w + 1] + line[b.w + 1..b.d] + line[b.d..b.d + 1];
    assert line[..|p|] == p;
  }

  /**
   * One row of the destination-port report, or the first of the five searches
   * (timestamp, SRC, DST, SPT, DPT, in the script's order) that finds nothing.
   */
  function PortFields(line: string): (r: Result<PortRow, Field>)
    ensures r == Failure(Timestamp) <==> LeadingTimestamp(line).None?
    ensures r == Failure(SourceIp) <==> LeadingTimestamp(line).Some? && SrcIp(line).None?
    ensures r == Failure(DestinationIp) <==>
      LeadingTimestamp(line).Some? && SrcIp(line).Some? && DstIp(line).None?
    ensures r == Failure(SourcePort) <==>
      LeadingTimestamp(line).Some? && SrcIp(line).Some? && DstIp(line).Some? && SrcPort(line).None?
    ensures r == Failure(DestinationPort) <==>
      LeadingTimestamp(line).Some? && SrcIp(line).Some? && DstIp(line).Some? && SrcPort(line).Some? && DstPort(line).None?
    ensures r.Success? <==>
      LeadingTimestamp(line).Some? && SrcIp(line).Some? && DstIp(line).Some? && SrcPort(line).Some? && DstPort(line).Some?
    ensures r.Success? ==> StampedBy(line, r.value.date, r.value.time)
    ensures r.Success? ==> SrcIp(line) == Some(r.value.srcIp) && DstIp(line) == Some(r.value.dstIp)
    ensures r.Success? ==> SrcPort(line) == Some(r.value.srcPort) && DstPort(line) == Some(r.value.dstPort)
  {
    var stamp := LeadingTimestamp(line);
    if stamp.None? then Failure(Timestamp)
    else if SrcIp(line).None? then Failure(SourceIp)
    else if DstIp(line).None? then Failure(DestinationIp)
    else if SrcPort(line).None? then Failure(SourcePort)
    else if DstPort(line).None? then Failure(DestinationPort)
    else
      var b := stamp.value;
      ScannedIsMatch(line);
      var dt := DateAndTime(line, b);
      StampPrefix(line, b);
      Success(PortRow(dt.0, dt.1, SrcIp(line).value, DstIp(line).value, SrcPort(line).value, DstPort(line).value))
  }

  /**
   * Every value of a port-report row reappears in its line right after its
   * marker, the addresses are whitespace-free and the ports are digit strings;
   * the Destination Port column is the port the tally counts the line under.
   */
  lemma PortRowValuesInLine(line: string)
    requires PortFields(line).Success?
    ensures var row := PortFields(line).value;
      && Contains(line, "SRC=" + row.srcIp) && |row.srcIp| > 0 && All(row.srcIp, IsNonSpace)
      && Contains(line, "DST=" + row.dstIp) && |row.dstIp| > 0 && All(row.dstIp, IsNonSpace)
      && Contains(line, "SPT=" + row.srcPort) && |row.srcPort| > 0 && All(row.srcPort, IsDigit)
      && Contains(line, "DPT=" + row.dstPort) && |row.dstPort| > 0 && All(row.dstPort, IsDigit)
      && DptPort(line) == Some(ParseDigits(row.dstPort))
  {
  }

  /** Python's `'invalid user' in line.lower()`. */
  predicate SelectsInvalidUser(line: string) {
    Contains(Lower(line), "invalid user")
  }

  function UserName(line: string): Option<string> { MarkerRun(Lower(line), "invalid user ", IsNonSpace) }
  function FromHostOf(line: string): Option<string> { MarkerRun(Lower(line), "from ", IsNonSpace) }

  /**
   * One row of the invalid-user report: Date and Time from the line as written,
   * user name and host from its lower-cased form; or the first search (timestamp,
   * user name, host) that finds nothing.
   */
  function UserFields(line: string): (r: Result<UserRow, Field>)
    ensures r == Failure(Timestamp) <==> LeadingTimestamp(line).None?
    ensures r == Failure(Username) <==> LeadingTimestamp(line).Some? && UserName(line).None?
    ensures r == Failure(FromHost) <==> LeadingTimestamp(line).Some? && UserName(line).Some? && FromHostOf(line).None?
    ensures r.Success? <==> LeadingTimestamp(line).Some? && UserName(line).Some? && FromHostOf(line).Some?
    ensures r.Success? ==> StampedBy(line, r.value.date, r.value.time)
    ensures r.Success? ==> UserName(line) == Some(r.value.username) && FromHostOf(line) == Some(r.value.ipAddress)
  {
    var stamp := LeadingTimestamp(line);
    if stamp.None? then Failure(Timestamp)
    else if UserName(line).None? then Failure(Username)
    else if FromHostOf(line).None? then Failure(FromHost)
    else
      var b := stamp.value;
      ScannedIsMatch(line);
      var dt := DateAndTime(line, b);
      StampPrefix(line, b);
      Success(UserRow(dt.0, dt.1, UserName(line).value, FromHostOf(line).value))
  }

  /** A value found after a marker in the lower-cased line has no upper-case letter. */
  lemma MarkerValueIsLower(low: string, marker: string, v: string)
    requires forall i :: 0 <= i < |low| ==> !IsUpper(low[i])
    requires Contains(low, marker + v)
    ensures forall i :: 0 <= i < |v| ==> !IsUpper(v[i])
  {
    var t := marker + v;
    var k :| 0 <= k <= |low| - |t| && OccursAt(low, t, k);
    PieceOfLowerHasNoUpper(low, t, k);
    forall i | 0 <= i < |v| ensures !IsUpper(v[i]) {
      assert v[i] == t[|marker| + i];
    }
  }

  /**
   * The user name and host of an invalid-user row come from the lower-cased line:
   * they contain no upper-case letter, are whitespace-free, and follow their
   * markers there.
   */
  lemma UserRowIsLowerCase(line: string)
    requires UserFields(line).Success?
    ensures var row := UserFields(line).value;
      && (forall i :: 0 <= i < |row.username| ==> !IsUpper(row.username[i]))
      && (forall i :: 0 <= i < |row.ipAddress| ==> !IsUpper(row.ipAddress[i]))
      && |row.username| > 0 && All(row.username, IsNonSpace) && Contains(Lower(line), "invalid user " + row.username)
      && |row.ipAddress| > 0 && All(row.ipAddress, IsNonSpace) && Contains(Lower(line), "from " + row.ipAddress)
  {
    var row := UserFields(line).value;
    MarkerValueIsLower(Lower(line), "invalid user ", row.username);
    MarkerValueIsLower(Lower(line), "from ", row.ipAddress);
  }
}
