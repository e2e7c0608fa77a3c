/** Telemetry points, the collector's validation of them, and the CSV rows they are made from. */
module Telemetry {
  import opened Messages

  /** `timestamp` is in nanoseconds; zero is the zero time. */
  datatype TelemetryPoint = TelemetryPoint(
    gpuUuid: string, metricName: string, value: string, timestamp: nat, batchId: string, labelsRaw: string)

  datatype ValidationError = MissingUuid | MissingMetricName | MissingTimestamp

  function ValidateTelemetry(t: TelemetryPoint): (err: Option<ValidationError>)
    ensures err == None <==> t.gpuUuid != "" && t.metricName != "" && t.timestamp != 0
  {
    if t.gpuUuid == "" then Some(MissingUuid)
    else if t.metricName == "" then Some(MissingMetricName)
    else if t.timestamp == 0 then Some(MissingTimestamp)
    else None
  }

  /** Unicode white space, as strings.TrimSpace knows it. */
  predicate IsSpace(c: char) {
    c in " \t\n\U{b}\U{c}\r\U{85}\U{a0}\U{1680}\U{2028}\U{2029}\U{202f}\U{205f}\U{3000}"
    || '\U{2000}' <= c <= '\U{200a}'
  }

  function TrimLeft(s: string): string {
    if s != [] && IsSpace(s[0]) then TrimLeft(s[1..]) else s
  }

  function TrimRight(s: string): string {
    if s != [] && IsSpace(s[|s| - 1]) then TrimRight(s[..|s| - 1]) else s
  }

  function TrimSpace(s: string): string {
    TrimRight(TrimLeft(s))
  }

  predicate Blank(s: string) {
    forall i :: 0 <= i < |s| ==> IsSpace(s[i])
  }

  lemma {:induction false} TrimLeftKeeps(s: string)
    ensures TrimLeft(s) == "" <==> Blank(s)
    ensures TrimLeft(s) != "" ==> !IsSpace(TrimLeft(s)[0])
  {
    if s != [] {
      TrimLeftKeeps(s[1..]);
      if Blank(s[1..]) && IsSpace(s[0]) {
        assert forall i :: 0 < i < |s| ==> s[i] == s[1..][i - 1];
      }
    }
  }

  lemma {:induction false} TrimRightKeeps(s: string)
    requires s != "" && !IsSpace(s[0])
    ensures TrimRight(s) != ""
  {
    if IsSpace(s[|s| - 1]) {
      TrimRightKeeps(s[..|s| - 1]);
    }
  }

  /** Trimming empties exactly the blank strings. */
  lemma TrimSpaceEmptyIff(s: string)
    ensures TrimSpace(s) == "" <==> Blank(s)
  {
    TrimLeftKeeps(s);
    if TrimLeft(s) != "" {
      TrimRightKeeps(TrimLeft(s));
    }
  }

  /** `t` is `s` without the white space around it. */
  ghost predicate TrimmedTo(s: string, t: string) {
    && (exists i: nat, j: nat :: i <= j <= |s| && t == s[i..j] && Blank(s[..i]) && Blank(s[j..]))
    && (t == "" || (!IsSpace(t[0]) && !IsSpace(t[|t| - 1])))
  }

  lemma {:induction false} TrimLeftExactly(s: string) returns (i: nat)
    ensures i <= |s| && TrimLeft(s) == s[i..] && forall k :: 0 <= k < i ==> IsSpace(s[k])
  {
    if s != [] && IsSpace(s[0]) {
      var h := TrimLeftExactly(s[1..]);
      i := h + 1;
      forall k | 0 < k < i ensures IsSpace(s[k]) {
        assert s[k] == s[1..][k - 1];
      }
    } else {
      i := 0;
    }
  }

  /** Where the white space at the end of a string begins. */
  function TextEnd(s: string): (j: nat)
    ensures j <= |s| && (forall k :: j <= k < |s| ==> IsSpace(s[k])) && (j > 0 ==> !IsSpace(s[j - 1]))
  {
    if s != [] && IsSpace(s[|s| - 1]) then
      var front := s[..|s| - 1];
      assert forall k :: 0 <= k < |front| ==> front[k] == s[k];
      TextEnd(front)
    else |s|
  }

  lemma {:induction false} TrimRightExactly(s: string)
    ensures TrimRight(s) == s[..TextEnd(s)]
  {
    if s != [] && IsSpace(s[|s| - 1]) {
      var front := s[..|s| - 1];
      TrimRightExactly(front);
      assert TrimRight(s) == TrimRight(front) && TextEnd(s) == TextEnd(front);
      assert front[..TextEnd(front)] == s[..TextEnd(front)];
    } else {
      assert TrimRight(s) == s && TextEnd(s) == |s|;
    }
  }

  /** Trimming takes off exactly the white space around a string. */
  lemma TrimSpaceExactly(s: string)
    ensures TrimmedTo(s, TrimSpace(s))
  {
    var i := TrimLeftExactly(s);
    var l := TrimLeft(s);
    var j := TextEnd(l);
    TrimRightExactly(l);
    TrimLeftKeeps(s);
    assert l[..j] == s[i..i + j] && l[j..] == s[i + j..];
  }

  datatype CSVRecord = CSVRecord(
    timestamp: string, metricName: string, gpuId: string, device: string, uuid: string, modelName: string,
    hostname: string, container: string, pod: string, namespace: string, value: string, labelsRaw: string)

  /** What the CSV reader hands out: the fields of a row, or a syntax error. */
  datatype Line = Malformed | Row(fields: seq<string>)

  function GetCol(headerMap: map<string, nat>, row: seq<string>, name: string): string {
    if name in headerMap && headerMap[name] < |row| then TrimSpace(row[headerMap[name]]) else ""
  }

  function ParseRow(headerMap: map<string, nat>, row: seq<string>): Option<CSVRecord> {
    if row == [] || headerMap == map[] then None
    else
      var record := CSVRecord(
        GetCol(headerMap, row, "timestamp"), GetCol(headerMap, row, "metric_name"), GetCol(headerMap, row, "gpu_id"),
        GetCol(headerMap, row, "device"), GetCol(headerMap, row, "uuid"), GetCol(headerMap, row, "modelName"),
        GetCol(headerMap, row, "Hostname"), GetCol(headerMap, row, "container"), GetCol(headerMap, row, "pod"),
        GetCol(headerMap, row, "namespace"), GetCol(headerMap, row, "value"), GetCol(headerMap, row, "labels_raw"));
      if record.uuid == "" || record.metricName == "" then None else Some(record)
  }

  /** StreamReader.Next on one line. */
  function Next(headerMap: map<string, nat>, line: Line): Option<CSVRecord> {
    match line
    case Malformed => None
    case Row(fields) => ParseRow(headerMap, fields)
  }

  /** A row is taken exactly when its uuid and metric_name columns are there and not blank. */
  lemma RowParsesIff(headerMap: map<string, nat>, row: seq<string>)
    ensures ParseRow(headerMap, row).Some? <==>
      && "uuid" in headerMap && headerMap["uuid"] < |row| && !Blank(row[headerMap["uuid"]])
      && "metric_name" in headerMap && headerMap["metric_name"] < |row| && !Blank(row[headerMap["metric_name"]])
  {
    if "uuid" in headerMap && headerMap["uuid"] < |row| {
      TrimSpaceEmptyIff(row[headerMap["uuid"]]);
    }
    if "metric_name" in headerMap && headerMap["metric_name"] < |row| {
      TrimSpaceEmptyIff(row[headerMap["metric_name"]]);
    }
  }

  /** The value of a column of the row, without the white space around it; empty if the row has no such column. */
  ghost predicate ColumnIs(headerMap: map<string, nat>, row: seq<string>, name: string, v: string) {
    if name in headerMap && headerMap[name] < |row| then TrimmedTo(row[headerMap[name]], v) else v == ""
  }

  lemma GetColIs(headerMap: map<string, nat>, row: seq<string>, name: string)
    ensures ColumnIs(headerMap, row, name, GetCol(headerMap, row, name))
  {
    if name in headerMap && headerMap[name] < |row| {
      TrimSpaceExactly(row[headerMap[name]]);
    }
  }

  /** Each field of a record is the column of its name. */
  ghost predicate RecordSays(headerMap: map<string, nat>, row: seq<string>, r: CSVRecord) {
    && ColumnIs(headerMap, row, "timestamp", r.timestamp) && ColumnIs(headerMap, row, "metric_name", r.metricName)
    && ColumnIs(headerMap, row, "gpu_id", r.gpuId) && ColumnIs(headerMap, row, "device", r.device)
    && ColumnIs(headerMap, row, "uuid", r.uuid) && ColumnIs(headerMap, row, "modelName", r.modelName)
    && ColumnIs(headerMap, row, "Hostname", r.hostname) && ColumnIs(headerMap, row, "container", r.container)
    && ColumnIs(headerMap, row, "pod", r.pod) && ColumnIs(headerMap, row, "namespace", r.namespace)
    && ColumnIs(headerMap, row, "value", r.value) && ColumnIs(headerMap, row, "labels_raw", r.labelsRaw)
  }

  lemma RowFields(headerMap: map<string, nat>, row: seq<string>)
    requires ParseRow(headerMap, row).Some?
    ensures RecordSays(headerMap, row, ParseRow(headerMap, row).value)
  {
    forall name: string ensures ColumnIs(headerMap, row, name, GetCol(headerMap, row, name)) {
      GetColIs(headerMap, row, name);
    }
  }

  /** The point says of the row its uuid, metric, value and labels, under the batch's time and ID. */
  ghost predicate PointSays(headerMap: map<string, nat>, row: seq<string>, now: nat, batchId: string, t: TelemetryPoint) {
    && ColumnIs(headerMap, row, "uuid", t.gpuUuid) && ColumnIs(headerMap, row, "metric_name", t.metricName)
    && ColumnIs(headerMap, row, "value", t.value) && ColumnIs(headerMap, row, "labels_raw", t.labelsRaw)
    && t.timestamp == now && t.batchId == batchId
  }

  function ToTelemetryPoint(r: CSVRecord, batchTimestamp: nat, batchId: string): TelemetryPoint {
    TelemetryPoint(r.uuid, r.metricName, r.value, batchTimestamp, batchId, r.labelsRaw)
  }

  /** The point made from a parsed row says what the row's columns say. */
  lemma PointOfRow(headerMap: map<string, nat>, row: seq<string>, r: CSVRecord, now: nat, batchId: string)
    requires RecordSays(headerMap, row, r)
    ensures PointSays(headerMap, row, now, batchId, ToTelemetryPoint(r, now, batchId))
  {
  }

  /** What successive calls of Next answer up to the end of the file. */
  function Readings(headerMap: map<string, nat>, lines: seq<Line>): (r: seq<Option<CSVRecord>>)
    ensures |r| == |lines|
  {
    seq(|lines|, i requires 0 <= i < |lines| => Next(headerMap, lines[i]))
  }

  /** The records among the readings, in order. */
  function Kept(readings: seq<Option<CSVRecord>>): (r: seq<CSVRecord>)
    ensures |r| <= |readings|
  {
    if readings == [] then []
    else (if readings[0].Some? then [readings[0].value] else []) + Kept(readings[1..])
  }

  /** The records of a file, in row order. */
  function Parsed(headerMap: map<string, nat>, lines: seq<Line>): (r: seq<CSVRecord>)
    ensures |r| <= |lines|
  {
    Kept(Readings(headerMap, lines))
  }

  lemma {:induction false} KeptAppend(readings: seq<Option<CSVRecord>>, x: Option<CSVRecord>)
    ensures Kept(readings + [x]) == Kept(readings) + if x.Some? then [x.value] else []
  {
    if readings == [] {
      assert [x][1..] == [] && readings + [x] == [x];
    } else {
      assert (readings + [x])[0] == readings[0] && (readings + [x])[1..] == readings[1..] + [x];
      KeptAppend(readings[1..], x);
    }
  }

  /** The line is a row with a uuid and a metric name. */
  predicate Parses(headerMap: map<string, nat>, line: Line) {
    && line.Row?
    && "uuid" in headerMap && headerMap["uuid"] < |line.fields| && !Blank(line.fields[headerMap["uuid"]])
    && "metric_name" in headerMap && headerMap["metric_name"] < |line.fields| && !Blank(line.fields[headerMap["metric_name"]])
  }

  /** The lines of a file that parse, in order. */
  function ParsingAt(headerMap: map<string, nat>, lines: seq<Line>): seq<nat> {
    Indices(lines, l => Parses(headerMap, l))
  }

  lemma NextIff(headerMap: map<string, nat>, line: Line)
    ensures Next(headerMap, line).Some? <==> Parses(headerMap, line)
  {
    if line.Row? {
      RowParsesIff(headerMap, line.fields);
    }
  }

  lemma ParsedAppend(headerMap: map<string, nat>, lines: seq<Line>, x: Line)
    ensures Parsed(headerMap, lines + [x]) ==
      Parsed(headerMap, lines) + if Next(headerMap, x).Some? then [Next(headerMap, x).value] else []
  {
    assert Readings(headerMap, lines + [x]) == Readings(headerMap, lines) + [Next(headerMap, x)];
    KeptAppend(Readings(headerMap, lines), Next(headerMap, x));
  }

  lemma {:induction false} ParsedInOrder(headerMap: map<string, nat>, lines: seq<Line>)
    ensures
      var at, r := ParsingAt(headerMap, lines), Parsed(headerMap, lines);
      |r| == |at| && forall k :: 0 <= k < |at| ==> Next(headerMap, lines[at[k]]) == Some(r[k])
  {
    if lines != [] {
      var n := |lines| - 1;
      var front := lines[..n];
      assert lines == front + [lines[n]];
      ParsedInOrder(headerMap, front);
      NextIff(headerMap, lines[n]);
      ParsedAppend(headerMap, front, lines[n]);
      IndicesAppend(front, lines[n], l => Parses(headerMap, l));
    }
  }

  /** The records of a file are those of exactly the lines that parse, in file order, each with the fields of its
      line's columns. */
  lemma ParsedExactly(headerMap: map<string, nat>, lines: seq<Line>)
    ensures
      var at, r := ParsingAt(headerMap, lines), Parsed(headerMap, lines);
      |r| == |at| && forall k :: 0 <= k < |at| ==> RecordSays(headerMap, lines[at[k]].fields, r[k])
  {
    ParsedInOrder(headerMap, lines);
    var at, r := ParsingAt(headerMap, lines), Parsed(headerMap, lines);
    forall k | 0 <= k < |at| ensures RecordSays(headerMap, lines[at[k]].fields, r[k]) {
      NextIff(headerMap, lines[at[k]]);
      RowFields(headerMap, lines[at[k]].fields);
    }
  }

  lemma {:induction false} KeptAreComplete(readings: seq<Option<CSVRecord>>)
    requires forall i :: 0 <= i < |readings| && readings[i].Some? ==>
      readings[i].value.uuid != "" && readings[i].value.metricName != ""
    ensures forall i :: 0 <= i < |Kept(readings)| ==> Kept(readings)[i].uuid != "" && Kept(readings)[i].metricName != ""
  {
    if readings != [] {
      KeptAreComplete(readings[1..]);
    }
  }

  /** No record of a file lacks its uuid or metric name. */
  lemma ParsedAreComplete(headerMap: map<string, nat>, lines: seq<Line>)
    ensures forall i :: 0 <= i < |Parsed(headerMap, lines)| ==>
      Parsed(headerMap, lines)[i].uuid != "" && Parsed(headerMap, lines)[i].metricName != ""
  {
    KeptAreComplete(Readings(headerMap, lines));
  }
}
