/** Parsing a RUM beacon file and quarantining its malformed lines (backend/core/rum_ingest.py and the
    evidence store of backend/core/metadata/quarantine_evidence.py). */
module Quarantine {
  import opened Beacons
  import opened Sorting
  import opened Text
  import opened Wrappers

  // ---- One line -----------------------------------------------------------------------------

  datatype Kind = Blank | Corrupt(reason: string) | Skipped | Good(vitals: seq<Row>, errors: seq<Row>)

  function Cut(s: string, n: nat): string { if |s| <= n then s else s[..n] }

  function RemovePrefix(s: string, p: string): string { if StartsWith(s, p) then s[|p|..] else s }

  function ReasonFor(message: string): string {
    if message == "missing_timestamp" then message
    else if StartsWith(message, "invalid_timestamp") then
      Cut("invalid_timestamp: " + RemovePrefix(message, "invalid_timestamp: "), 200)
    else Cut("parse_error: " + message, 200)
  }

  function Classify(c: Codec, line: Bytes): Kind {
    var s := StripBytes(line);
    if s == [] then Blank
    else
      match c.parse(s)
      case BadJson => Corrupt("invalid_json")
      case Raises(m) => Corrupt(ReasonFor(m))
      case Ignored => Skipped
      case Rows(v, e) => if v == [] && e == [] then Corrupt("empty_beacon_payload") else Good(v, e)
  }

  function Decoded(c: Codec, line: Bytes): string { c.decode(StripBytes(line)) }

  /** `reason.partition(":")[0]`. */
  function Category(reason: string): string {
    if reason == [] || reason[0] == ':' then [] else [reason[0]] + Category(reason[1..])
  }

  // ---- A whole file -------------------------------------------------------------------------

  function Offset(lines: seq<Bytes>, n: nat): nat
    requires n <= |lines|
  {
    if n == 0 then 0 else Offset(lines, n - 1) + |lines[n - 1]|
  }

  /** Evidence for the malformed lines among the first `n`. */
  function Records(c: Codec, lines: seq<Bytes>, n: nat): seq<Record>
    requires n <= |lines|
    decreases n
  {
    if n == 0 then []
    else
      var before := Records(c, lines, n - 1);
      match Classify(c, lines[n - 1])
      case Corrupt(reason) => before + [Record(n, Offset(lines, n - 1), lines[n - 1], reason)]
      case _ => before
  }

  datatype Complaint = Complaint(line: string, reason: string)

  /** `corrupt_lines`: the malformed lines as text. */
  function Complaints(c: Codec, lines: seq<Bytes>, n: nat): seq<Complaint>
    requires n <= |lines|
    decreases n
  {
    if n == 0 then []
    else
      var before := Complaints(c, lines, n - 1);
      match Classify(c, lines[n - 1])
      case Corrupt(reason) => before + [Complaint(Decoded(c, lines[n - 1]), reason)]
      case _ => before
  }

  function Vitals(c: Codec, lines: seq<Bytes>, n: nat): seq<Row>
    requires n <= |lines|
    decreases n
  {
    if n == 0 then []
    else Vitals(c, lines, n - 1) + match Classify(c, lines[n - 1]) case Good(v, e) => v case _ => []
  }

  function Errors(c: Codec, lines: seq<Bytes>, n: nat): seq<Row>
    requires n <= |lines|
    decreases n
  {
    if n == 0 then []
    else Errors(c, lines, n - 1) + match Classify(c, lines[n - 1]) case Good(v, e) => e case _ => []
  }

  // ---- What these are, said of the lines ----------------------------------------------------

  lemma ClassifyIs(c: Codec, line: Bytes)
    ensures Classify(c, line).Corrupt? <==> Fault(c, line).Some?
    ensures Classify(c, line).Corrupt? ==> Fault(c, line) == Some(Classify(c, line).reason)
    ensures VitalsIn(c, line) == match Classify(c, line) case Good(v, e) => v case _ => []
    ensures ErrorsIn(c, line) == match Classify(c, line) case Good(v, e) => e case _ => []
    ensures Classify(c, line).Blank? <==> StripBytes(line) == []
    ensures Classify(c, line).Skipped? <==> StripBytes(line) != [] && c.parse(StripBytes(line)).Ignored?
  {
    var s := StripBytes(line);
    if s != [] && c.parse(s).Raises? {
      ReasonIs(c.parse(s).message);
    }
  }

  lemma ReasonIs(m: string)
    ensures ReasonFor(m) ==
            if m == "missing_timestamp" then m
            else if "invalid_timestamp: " <= m then First200(m)
            else if "invalid_timestamp" <= m then First200("invalid_timestamp: " + m)
            else First200("parse_error: " + m)
  {
    if "invalid_timestamp: " <= m {
      assert "invalid_timestamp" <= "invalid_timestamp: ";
      assert "invalid_timestamp" <= m;
      assert m == "invalid_timestamp: " + m[|"invalid_timestamp: "|..];
    }
  }

  lemma VitalsNext(c: Codec, lines: seq<Bytes>, n: nat)
    requires n < |lines|
    ensures Vitals(c, lines, n + 1) == Vitals(c, lines, n) + VitalsIn(c, lines[n])
    ensures VitalRows(c, lines[n..]) == VitalsIn(c, lines[n]) + VitalRows(c, lines[n + 1..])
  {
    assert lines[n..][0] == lines[n] && lines[n..][1..] == lines[n + 1..];
    ClassifyIs(c, lines[n]);
  }

  lemma {:induction false} VitalsAre(c: Codec, lines: seq<Bytes>, n: nat)
    requires n <= |lines|
    ensures Vitals(c, lines, |lines|) == Vitals(c, lines, n) + VitalRows(c, lines[n..])
    decreases |lines| - n
  {
    if n < |lines| {
      VitalsAre(c, lines, n + 1);
      VitalsNext(c, lines, n);
      Regroup(Vitals(c, lines, n), VitalsIn(c, lines[n]), VitalRows(c, lines[n + 1..]));
    }
  }

  lemma ErrorsNext(c: Codec, lines: seq<Bytes>, n: nat)
    requires n < |lines|
    ensures Errors(c, lines, n + 1) == Errors(c, lines, n) + ErrorsIn(c, lines[n])
    ensures ErrorRows(c, lines[n..]) == ErrorsIn(c, lines[n]) + ErrorRows(c, lines[n + 1..])
  {
    assert lines[n..][0] == lines[n] && lines[n..][1..] == lines[n + 1..];
    ClassifyIs(c, lines[n]);
  }

  lemma {:induction false} ErrorsAre(c: Codec, lines: seq<Bytes>, n: nat)
    requires n <= |lines|
    ensures Errors(c, lines, |lines|) == Errors(c, lines, n) + ErrorRows(c, lines[n..])
    decreases |lines| - n
  {
    if n < |lines| {
      ErrorsAre(c, lines, n + 1);
      ErrorsNext(c, lines, n);
      Regroup(Errors(c, lines, n), ErrorsIn(c, lines[n]), ErrorRows(c, lines[n + 1..]));
    }
  }

  lemma {:induction false} RecordsAre(c: Codec, lines: seq<Bytes>, n: nat)
    requires n <= |lines|
    ensures Records(c, lines, |lines|) == Records(c, lines, n) + FaultsFrom(c, lines, n, Offset(lines, n))
    decreases |lines| - n
  {
    if n < |lines| {
      RecordsAre(c, lines, n + 1);
      ClassifyIs(c, lines[n]);
    }
  }

  /** What the parse of a file yields is what its lines hold, and the records are its faulty lines. */
  lemma FileMeans(c: Codec, lines: seq<Bytes>)
    ensures Vitals(c, lines, |lines|) == VitalRows(c, lines) && Errors(c, lines, |lines|) == ErrorRows(c, lines)
    ensures Records(c, lines, |lines|) == Faults(c, lines)
  {
    assert lines[0..] == lines;
    VitalsAre(c, lines, 0);
    ErrorsAre(c, lines, 0);
    RecordsAre(c, lines, 0);
  }

  /** `_parse_rum_beacon_file`, the evidence it sets aside included. */
  method ParseFile(c: Codec, lines: seq<Bytes>)
      returns (vitals: seq<Row>, errors: seq<Row>, corrupt: seq<Complaint>, records: seq<Record>)
    ensures vitals == VitalRows(c, lines) && errors == ErrorRows(c, lines) && records == Faults(c, lines)
    ensures corrupt == Complaints(c, lines, |lines|) && records == Records(c, lines, |lines|)
  {
    vitals, errors, corrupt, records := [], [], [], [];
    var offset := 0;
    for i := 0 to |lines|
      invariant offset == Offset(lines, i)
      invariant vitals == Vitals(c, lines, i) && errors == Errors(c, lines, i)
      invariant corrupt == Complaints(c, lines, i) && records == Records(c, lines, i)
    {
      var raw := lines[i];
      var current := offset;
      offset := offset + |raw|;
      match Classify(c, raw)
      case Corrupt(reason) =>
        corrupt := corrupt + [Complaint(Decoded(c, raw), reason)];
        records := records + [Record(i + 1, current, raw, reason)];
      case Good(v, e) =>
        vitals := vitals + v;
        errors := errors + e;
      case _ =>
    }
    FileMeans(c, lines);
  }

  // ---- What the evidence of a file is -------------------------------------------------------

  /** Every record describes a malformed line of the file, at its place. */
  lemma {:induction false} RecordSound(c: Codec, lines: seq<Bytes>, n: nat, k: nat)
    requires n <= |lines| && k < |Records(c, lines, n)|
    ensures var r := Records(c, lines, n)[k];
            && 1 <= r.ordinal <= n && r.raw == lines[r.ordinal - 1] && r.offset == Offset(lines, r.ordinal - 1)
            && Fault(c, r.raw) == Some(r.reason)
    decreases n
  {
    ClassifyIs(c, lines[n - 1]);
    if k < |Records(c, lines, n - 1)| {
      RecordSound(c, lines, n - 1, k);
    }
  }

  /** Records come in file order, so no line has two. */
  lemma {:induction false} RecordsOrdered(c: Codec, lines: seq<Bytes>, n: nat, j: nat, k: nat)
    requires n <= |lines| && j < k < |Records(c, lines, n)|
    ensures Records(c, lines, n)[j].ordinal < Records(c, lines, n)[k].ordinal
    decreases n
  {
    if k < |Records(c, lines, n - 1)| {
      RecordsOrdered(c, lines, n - 1, j, k);
    } else {
      RecordSound(c, lines, n - 1, j);
    }
  }

  /** Every malformed line has a record. */
  lemma {:induction false} RecordFound(c: Codec, lines: seq<Bytes>, n: nat, i: nat) returns (k: nat)
    requires i < n <= |lines| && Fault(c, lines[i]).Some?
    ensures k < |Records(c, lines, n)|
    ensures Records(c, lines, n)[k] == Record(i + 1, Offset(lines, i), lines[i], Fault(c, lines[i]).value)
    decreases n
  {
    ClassifyIs(c, lines[i]);
    if i < n - 1 {
      k := RecordFound(c, lines, n - 1, i);
    } else {
      k := |Records(c, lines, n - 1)|;
    }
  }

  function CountLines(c: Codec, lines: seq<Bytes>, n: nat, p: Kind -> bool): nat
    requires n <= |lines|
    decreases n
  {
    if n == 0 then 0 else CountLines(c, lines, n - 1, p) + if p(Classify(c, lines[n - 1])) then 1 else 0
  }

  predicate IsBlank(k: Kind) { k.Blank? }
  predicate IsCorrupt(k: Kind) { k.Corrupt? }
  predicate IsSkipped(k: Kind) { k.Skipped? }
  predicate IsGood(k: Kind) { k.Good? }

  /** Every line is exactly one of blank, malformed, skipped and row-producing: the four counts add up to the
      lines, and there is one complaint for each malformed line. */
  lemma {:induction false} LinesAccounted(c: Codec, lines: seq<Bytes>, n: nat)
    requires n <= |lines|
    ensures CountLines(c, lines, n, IsBlank) + CountLines(c, lines, n, IsCorrupt)
            + CountLines(c, lines, n, IsSkipped) + CountLines(c, lines, n, IsGood) == n
    ensures |Complaints(c, lines, n)| == CountLines(c, lines, n, IsCorrupt)
    decreases n
  {
    if n > 0 {
      LinesAccounted(c, lines, n - 1);
    }
  }

  /** Each row-producing line yields a row, and without one there are none. */
  lemma {:induction false} RowsAccounted(c: Codec, lines: seq<Bytes>, n: nat)
    requires n <= |lines|
    ensures CountLines(c, lines, n, IsGood) <= |Vitals(c, lines, n)| + |Errors(c, lines, n)|
    ensures CountLines(c, lines, n, IsGood) == 0 ==> Vitals(c, lines, n) == [] && Errors(c, lines, n) == []
    decreases n
  {
    if n > 0 {
      RowsAccounted(c, lines, n - 1);
    }
  }

  function Joined(lines: seq<Bytes>, n: nat): Bytes
    requires n <= |lines|
    decreases n
  {
    if n == 0 then [] else Joined(lines, n - 1) + lines[n - 1]
  }

  /** An offset and a length give back the very bytes of the line from the whole file. */
  lemma {:induction false} BytesAtOffset(lines: seq<Bytes>, i: nat, n: nat)
    requires i < n <= |lines|
    ensures Offset(lines, i) + |lines[i]| <= Offset(lines, n) == |Joined(lines, n)|
    ensures Joined(lines, n)[Offset(lines, i)..Offset(lines, i) + |lines[i]|] == lines[i]
    decreases n
  {
    JoinedLength(lines, n - 1);
    if i < n - 1 {
      BytesAtOffset(lines, i, n - 1);
      var at := Offset(lines, i);
      assert Joined(lines, n)[at..at + |lines[i]|] == Joined(lines, n - 1)[at..at + |lines[i]|];
    }
  }

  lemma {:induction false} JoinedLength(lines: seq<Bytes>, n: nat)
    requires n <= |lines|
    ensures |Joined(lines, n)| == Offset(lines, n)
    decreases n
  {
    if n > 0 {
      JoinedLength(lines, n - 1);
    }
  }

  /** Whatever exception text ends up in a reason, its category follows from the verdict alone. */
  lemma CategoryKnown(c: Codec, line: Bytes)
    requires Classify(c, line).Corrupt?
    ensures Category(Classify(c, line).reason) == CategoryFor(c.parse(StripBytes(line)))
  {
    VerdictCategory(c.parse(StripBytes(line)));
  }

  /** Why a verdict other than rows is a complaint. */
  function Complain(verdict: Verdict): string {
    if verdict.Raises? then ReasonFor(verdict.message)
    else if verdict.BadJson? then "invalid_json"
    else "empty_beacon_payload"
  }

  lemma VerdictCategory(verdict: Verdict)
    ensures Category(Complain(verdict)) == CategoryFor(verdict)
  {
    if verdict.Raises? {
      MessageCategory(verdict.message);
    } else {
      Plain(Complain(verdict));
    }
  }

  lemma MessageCategory(m: string)
    ensures Category(ReasonFor(m)) ==
            if m == "missing_timestamp" then "missing_timestamp"
            else if StartsWith(m, "invalid_timestamp") then "invalid_timestamp" else "parse_error"
  {
    if m == "missing_timestamp" {
      Plain("missing_timestamp");
    } else if StartsWith(m, "invalid_timestamp") {
      assert "invalid_timestamp: " == "invalid_timestamp" + ": ";
      CutHead("invalid_timestamp", RemovePrefix(m, "invalid_timestamp: "));
    } else {
      assert "parse_error: " == "parse_error" + ": ";
      CutHead("parse_error", m);
    }
  }

  lemma Plain(head: string)
    requires ':' !in head
    ensures Category(head) == head
  {
    CategoryOf(head, "");
    assert head + "" == head;
  }

  lemma CutHead(head: string, rest: string)
    requires ':' !in head && |head| < 198
    ensures Category(Cut(head + ": " + rest, 200)) == head
  {
    var reason := Cut(head + ": " + rest, 200);
    assert reason[|head|] == ':' && reason[..|head|] == head;
    CategoryOf(head, reason[|head|..]);
    assert reason == head + reason[|head|..];
  }

  lemma {:induction false} CategoryOf(head: string, tail: string)
    requires ':' !in head && (tail == [] || tail[0] == ':')
    ensures Category(head + tail) == head
    decreases |head|
  {
    if head == [] {
      assert head + tail == tail;
    } else {
      CategoryOf(head[1..], tail);
      assert (head + tail)[1..] == head[1..] + tail;
    }
  }

  // ---- The rescan ---------------------------------------------------------------------------

  function Reasons(complaints: seq<Complaint>, text: string): seq<string> {
    if complaints == [] then []
    else
      var before := Reasons(complaints[..|complaints| - 1], text);
      var last := complaints[|complaints| - 1];
      if last.line == text then before + [last.reason] else before
  }

  /** How many of the first `n` lines read as `text`. */
  function Matches(c: Codec, lines: seq<Bytes>, n: nat, text: string): nat
    requires n <= |lines|
    decreases n
  {
    if n == 0 then 0
    else Matches(c, lines, n - 1, text) + if Decoded(c, lines[n - 1]) == text then 1 else 0
  }

  /** Evidence gathered so far, and whether the lookup of a reason went out of range. */
  datatype Scan = Scan(found: seq<Record>, raised: bool)

  /** The rescan of the first `n` lines: a line that reads like a complaint takes the next reason
      recorded for that text. */
  function Rescan(c: Codec, lines: seq<Bytes>, complaints: seq<Complaint>, n: nat): Scan
    requires n <= |lines|
    decreases n
  {
    if n == 0 then Scan([], false)
    else
      var before := Rescan(c, lines, complaints, n - 1);
      var text := Decoded(c, lines[n - 1]);
      var reasons := Reasons(complaints, text);
      var k := Matches(c, lines, n - 1, text);
      if before.raised || reasons == [] then before
      else if k < |reasons| then before.(found := before.found + [Record(n, Offset(lines, n - 1), lines[n - 1], reasons[k])])
      else before.(raised := true)
  }

  /** A line that is not malformed reads like one that is. */
  ghost predicate Ambiguous(c: Codec, lines: seq<Bytes>) {
    exists i, j :: 0 <= i < |lines| && 0 <= j < |lines|
      && Classify(c, lines[i]).Corrupt? && !Classify(c, lines[j]).Corrupt?
      && Decoded(c, lines[i]) == Decoded(c, lines[j])
  }

  /** The reasons recorded for `text`, line by line. */
  function Said(c: Codec, lines: seq<Bytes>, n: nat, text: string): seq<string>
    requires n <= |lines|
    decreases n
  {
    if n == 0 then []
    else
      Said(c, lines, n - 1, text)
      + if Classify(c, lines[n - 1]).Corrupt? && Decoded(c, lines[n - 1]) == text then [Classify(c, lines[n - 1]).reason] else []
  }

  lemma {:induction false} SaidIs(c: Codec, lines: seq<Bytes>, n: nat, text: string)
    requires n <= |lines|
    ensures Reasons(Complaints(c, lines, n), text) == Said(c, lines, n, text)
    decreases n
  {
    if n > 0 {
      SaidIs(c, lines, n - 1, text);
      ReasonsNext(c, lines, n, text);
    }
  }

  lemma {:induction false} SaidGrows(c: Codec, lines: seq<Bytes>, m: nat, n: nat, text: string)
    requires m <= n <= |lines|
    ensures Said(c, lines, m, text) <= Said(c, lines, n, text)
    decreases n - m
  {
    if m < n {
      SaidGrows(c, lines, m, n - 1, text);
    }
  }

  lemma {:induction false} SaidBound(c: Codec, lines: seq<Bytes>, n: nat, text: string)
    requires n <= |lines|
    ensures |Said(c, lines, n, text)| <= Matches(c, lines, n, text)
    ensures (forall j :: 0 <= j < n && Decoded(c, lines[j]) == text ==> Classify(c, lines[j]).Corrupt?)
       <==> |Said(c, lines, n, text)| == Matches(c, lines, n, text)
    decreases n
  {
    if n > 0 {
      SaidBound(c, lines, n - 1, text);
    }
  }

  /** The complaints about one text are at most the lines that read so, and fewer as soon as one such
      line is not malformed. */
  lemma MatchesBound(c: Codec, lines: seq<Bytes>, n: nat, text: string)
    requires n <= |lines|
    ensures |Reasons(Complaints(c, lines, n), text)| <= Matches(c, lines, n, text)
    ensures (forall j :: 0 <= j < n && Decoded(c, lines[j]) == text ==> Classify(c, lines[j]).Corrupt?)
       <==> |Reasons(Complaints(c, lines, n), text)| == Matches(c, lines, n, text)
  {
    SaidIs(c, lines, n, text);
    SaidBound(c, lines, n, text);
  }

  lemma ReasonsNext(c: Codec, lines: seq<Bytes>, n: nat, text: string)
    requires 0 < n <= |lines|
    ensures var said := Classify(c, lines[n - 1]).Corrupt? && Decoded(c, lines[n - 1]) == text;
            Reasons(Complaints(c, lines, n), text)
            == Reasons(Complaints(c, lines, n - 1), text) + if said then [Classify(c, lines[n - 1]).reason] else []
  {
    var before := Complaints(c, lines, n - 1);
    if Classify(c, lines[n - 1]).Corrupt? {
      assert Complaints(c, lines, n)[..|before|] == before;
    }
  }

  /** A longer prefix only adds reasons at the end, and a malformed line's own reason sits where the
      count of its likes before it says. */
  lemma ReasonsGrow(c: Codec, lines: seq<Bytes>, m: nat, n: nat, text: string)
    requires m <= n <= |lines|
    ensures Reasons(Complaints(c, lines, m), text) <= Reasons(Complaints(c, lines, n), text)
  {
    SaidIs(c, lines, m, text);
    SaidIs(c, lines, n, text);
    SaidGrows(c, lines, m, n, text);
  }

  lemma ReasonAdded(c: Codec, lines: seq<Bytes>, i: nat)
    requires i < |lines| && Classify(c, lines[i]).Corrupt?
    ensures var text := Decoded(c, lines[i]);
            Reasons(Complaints(c, lines, i + 1), text) == Reasons(Complaints(c, lines, i), text) + [Classify(c, lines[i]).reason]
  {
    ReasonsNext(c, lines, i + 1, Decoded(c, lines[i]));
  }

  lemma OwnReason(c: Codec, lines: seq<Bytes>, i: nat)
    requires i < |lines| && Classify(c, lines[i]).Corrupt?
    ensures var text := Decoded(c, lines[i]);
            var k := |Reasons(Complaints(c, lines, i), text)|;
            var all := Reasons(Complaints(c, lines, |lines|), text);
            k < |all| && all[k] == Classify(c, lines[i]).reason
  {
    var text := Decoded(c, lines[i]);
    ReasonAdded(c, lines, i);
    ReasonsGrow(c, lines, i + 1, |lines|, text);
  }

  lemma {:induction false} ComplainedMeansCorrupt(c: Codec, lines: seq<Bytes>, n: nat, text: string)
    requires n <= |lines| && Reasons(Complaints(c, lines, n), text) != []
    ensures exists i :: 0 <= i < n && Classify(c, lines[i]).Corrupt? && Decoded(c, lines[i]) == text
    decreases n
  {
    ReasonsNext(c, lines, n, text);
    if !(Classify(c, lines[n - 1]).Corrupt? && Decoded(c, lines[n - 1]) == text) {
      ComplainedMeansCorrupt(c, lines, n - 1, text);
    }
  }

  lemma RescanFinds(c: Codec, lines: seq<Bytes>, complaints: seq<Complaint>, n: nat, reason: string)
    requires 0 < n <= |lines| && !Rescan(c, lines, complaints, n - 1).raised
    requires var k := Matches(c, lines, n - 1, Decoded(c, lines[n - 1]));
             var reasons := Reasons(complaints, Decoded(c, lines[n - 1]));
             k < |reasons| && reasons[k] == reason
    ensures var record := Record(n, Offset(lines, n - 1), lines[n - 1], reason);
            Rescan(c, lines, complaints, n) == Scan(Rescan(c, lines, complaints, n - 1).found + [record], false)
  {
  }

  lemma RescanPasses(c: Codec, lines: seq<Bytes>, complaints: seq<Complaint>, n: nat)
    requires 0 < n <= |lines| && Reasons(complaints, Decoded(c, lines[n - 1])) == []
    ensures Rescan(c, lines, complaints, n) == Rescan(c, lines, complaints, n - 1)
  {
  }

  lemma RecordsNext(c: Codec, lines: seq<Bytes>, n: nat)
    requires 0 < n <= |lines|
    ensures var line := lines[n - 1];
            Records(c, lines, n) == Records(c, lines, n - 1)
              + if Classify(c, line).Corrupt? then [Record(n, Offset(lines, n - 1), line, Classify(c, line).reason)] else []
  {
  }

  lemma {:induction false} RescanAgrees(c: Codec, lines: seq<Bytes>, complaints: seq<Complaint>, n: nat)
    requires n <= |lines| && !Ambiguous(c, lines) && complaints == Complaints(c, lines, |lines|)
    ensures Rescan(c, lines, complaints, n) == Scan(Records(c, lines, n), false)
    decreases n
  {
    if n > 0 {
      RescanAgrees(c, lines, complaints, n - 1);
      RecordsNext(c, lines, n);
      if Classify(c, lines[n - 1]).Corrupt? {
        NextReason(c, lines, n - 1);
        RescanFinds(c, lines, complaints, n, Classify(c, lines[n - 1]).reason);
      } else {
        NoReason(c, lines, n - 1);
        RescanPasses(c, lines, complaints, n);
      }
    }
  }

  lemma NextReason(c: Codec, lines: seq<Bytes>, i: nat)
    requires i < |lines| && !Ambiguous(c, lines) && Classify(c, lines[i]).Corrupt?
    ensures var text := Decoded(c, lines[i]);
            var reasons := Reasons(Complaints(c, lines, |lines|), text);
            var k := Matches(c, lines, i, text);
            k < |reasons| && reasons[k] == Classify(c, lines[i]).reason
  {
    MatchesBound(c, lines, i, Decoded(c, lines[i]));
    OwnReason(c, lines, i);
  }

  lemma NoReason(c: Codec, lines: seq<Bytes>, i: nat)
    requires i < |lines| && !Ambiguous(c, lines) && !Classify(c, lines[i]).Corrupt?
    ensures Reasons(Complaints(c, lines, |lines|), Decoded(c, lines[i])) == []
  {
    if Reasons(Complaints(c, lines, |lines|), Decoded(c, lines[i])) != [] {
      ComplainedMeansCorrupt(c, lines, |lines|, Decoded(c, lines[i]));
    }
  }

  lemma {:induction false} UnraisedBound(c: Codec, lines: seq<Bytes>, complaints: seq<Complaint>, n: nat, text: string)
    requires n <= |lines| && !Rescan(c, lines, complaints, n).raised && Reasons(complaints, text) != []
    ensures Matches(c, lines, n, text) <= |Reasons(complaints, text)|
    decreases n
  {
    if n > 0 {
      UnraisedBound(c, lines, complaints, n - 1, text);
    }
  }

  /** The rescan of a whole file either goes out of range, exactly when a line that is not malformed
      reads like one that is, or finds precisely the evidence set aside while parsing. */
  lemma RescanRefines(c: Codec, lines: seq<Bytes>)
    ensures var scan := Rescan(c, lines, Complaints(c, lines, |lines|), |lines|);
            && (scan.raised <==> Ambiguous(c, lines))
            && (!scan.raised ==> scan.found == Records(c, lines, |lines|))
  {
    if Ambiguous(c, lines) {
      var i, j :| 0 <= i < |lines| && 0 <= j < |lines| && Classify(c, lines[i]).Corrupt? && !Classify(c, lines[j]).Corrupt?
                  && Decoded(c, lines[i]) == Decoded(c, lines[j]);
      var text := Decoded(c, lines[i]);
      OwnReason(c, lines, i);
      MatchesBound(c, lines, |lines|, text);
      if !Rescan(c, lines, Complaints(c, lines, |lines|), |lines|).raised {
        UnraisedBound(c, lines, Complaints(c, lines, |lines|), |lines|, text);
      }
    } else {
      RescanAgrees(c, lines, Complaints(c, lines, |lines|), |lines|);
    }
  }

  lemma {:induction false} OnePerComplaint(c: Codec, lines: seq<Bytes>, n: nat)
    requires n <= |lines|
    ensures |Records(c, lines, n)| == |Complaints(c, lines, n)|
    decreases n
  {
    if n > 0 {
      OnePerComplaint(c, lines, n - 1);
    }
  }

  // ---- Setting evidence aside ---------------------------------------------------------------

  const LIMIT: nat := 64

  datatype Entry = Entry(id: nat, path: string, records: seq<Record>)

  function Remember(entries: seq<Entry>, e: Entry): seq<Entry> {
    (if |entries| >= LIMIT then entries[1..] else entries) + [e]
  }

  function Forget(entries: seq<Entry>, id: nat): seq<Entry> {
    if entries == [] then []
    else if entries[0].id == id then Forget(entries[1..], id)
    else [entries[0]] + Forget(entries[1..], id)
  }

  predicate Distinct(entries: seq<Entry>) {
    forall i, j :: 0 <= i < j < |entries| ==> entries[i].id != entries[j].id
  }

  lemma {:induction false} ForgetMembers(entries: seq<Entry>, id: nat)
    ensures |Forget(entries, id)| <= |entries|
    ensures forall e :: e in Forget(entries, id) <==> e in entries && e.id != id
  {
    if entries != [] {
      ForgetMembers(entries[1..], id);
      assert entries == [entries[0]] + entries[1..];
    }
  }

  lemma {:induction false} ForgetDistinct(entries: seq<Entry>, id: nat)
    requires Distinct(entries)
    ensures Distinct(Forget(entries, id))
  {
    if entries != [] {
      ForgetDistinct(entries[1..], id);
      ForgetMembers(entries[1..], id);
      forall e | e in Forget(entries[1..], id) ensures e.id != entries[0].id {
        var i :| 0 <= i < |entries[1..]| && entries[1..][i] == e;
        assert entries[i + 1] == e;
      }
    }
  }

  /** `_PRECOLLECTED_CORRUPT_RECORDS`: a dictionary in insertion order, keyed by the identity of the
      list of complaints. An entry keeps its list alive, so a new list never has a stored identity. */
  class Precollected {
    var entries: seq<Entry>

    predicate Valid() reads this { |entries| <= LIMIT && Distinct(entries) }

    constructor ()
      ensures Valid() && entries == []
    {
      entries := [];
    }

    method Store(id: nat, path: string, records: seq<Record>)
      requires Valid() && forall e :: e in entries ==> e.id != id
      modifies this
      ensures Valid() && entries == if records == [] then old(entries) else Remember(old(entries), Entry(id, path, records))
    {
      if records != [] {
        if |entries| >= LIMIT {
          entries := entries[1..];
        }
        entries := entries + [Entry(id, path, records)];
      }
    }

    method Pop(id: nat) returns (r: Option<Entry>)
      requires Valid()
      modifies this
      ensures Valid() && entries == Forget(old(entries), id)
      ensures match r case Some(e) => e in old(entries) && e.id == id case None => forall e :: e in old(entries) ==> e.id != id
    {
      r := None;
      for i := 0 to |entries|
        invariant r.Some? ==> r.value in entries && r.value.id == id
        invariant r.None? ==> forall k :: 0 <= k < i ==> entries[k].id != id
      {
        if entries[i].id == id {
          r := Some(entries[i]);
        }
      }
      ForgetMembers(entries, id);
      ForgetDistinct(entries, id);
      entries := Forget(entries, id);
    }
  }

  // ---- The evidence store -------------------------------------------------------------------

  const CAP: nat := 1000

  function ItemOf(key: string, r: Record): Item { Item(key, r, Category(r.reason)) }

  /** The items captured for a file are its evidence. */
  lemma ItemsAre(c: Codec, lines: seq<Bytes>, key: string)
    ensures Items(key, Records(c, lines, |lines|)) == Proofs(c, lines, key)
  {
    FileMeans(c, lines);
    var records := Records(c, lines, |lines|);
    forall k | 0 <= k < |records|
      ensures Category(records[k].reason) == CategoryFor(c.parse(StripBytes(records[k].raw)))
    {
      RecordSound(c, lines, |lines|, k);
      ClassifyIs(c, records[k].raw);
      CategoryKnown(c, records[k].raw);
    }
  }

  /** A stored item under its own id. */
  datatype Kept = Kept(id: nat, item: Item)

  /** The newest `CAP` captured items; ids are given in order of capture. */
  function Newest(log: seq<Item>): seq<Kept> {
    var first := if |log| <= CAP then 0 else |log| - CAP;
    seq(|log| - first, i requires 0 <= i < |log| - first => Kept(first + i, log[first + i]))
  }

  /** What can still be read back: a failed eviction may have removed the oldest row's file. */
  function Readable(rows: seq<Kept>, missing: bool): seq<Kept> { if missing && rows != [] then rows[1..] else rows }

  /** Evidence of one service: everything ever captured, the rows the cap has left of it, and whether the oldest
      row has lost its file. Attempt number `i` fails when `faults(i)`, and when also `late(i)` it fails after
      the file to be evicted was removed. */
  class Evidence {
    const faults: nat -> bool
    const late: nat -> bool
    var attempts: nat
    ghost var log: seq<Item>
    var nextId: nat
    var rows: seq<Kept>
    var missing: bool

    ghost predicate Valid() reads this { nextId == |log| && rows == Newest(log) && (missing ==> |rows| == CAP) }

    constructor (faults: nat -> bool, late: nat -> bool)
      ensures Valid() && log == [] && attempts == 0 && this.faults == faults && this.late == late
    {
      this.faults, this.late := faults, late;
      attempts, log, nextId, rows, missing := 0, [], 0, [], false;
    }

    /** `capture_evidence`: stores the item and evicts the oldest beyond the cap, or fails and takes its own item
        back; the file of the oldest may be gone by then. */
    method Capture(item: Item) returns (failures: nat, evictions: nat)
      requires Valid()
      modifies this
      ensures Valid() && attempts == old(attempts) + 1
      ensures failures == (if faults(old(attempts)) then 1 else 0)
      ensures log == if failures == 0 then old(log) + [item] else old(log)
      ensures |rows| + evictions == |old(rows)| + 1 - failures
      ensures missing == (failures > 0 && (old(missing) || (late(old(attempts)) && |old(rows)| == CAP)))
    {
      failures, evictions := 0, 0;
      if faults(attempts) {
        failures := 1;
        if late(attempts) && |rows| + 1 > CAP {
          missing := true;
        }
      } else {
        rows := rows + [Kept(nextId, item)];
        log := log + [item];
        nextId := nextId + 1;
        if |rows| > CAP {
          rows := rows[1..];
          evictions := 1;
        }
        missing := false;
      }
      attempts := attempts + 1;
    }
  }

  /** The items of the first `n` records whose capture succeeds, attempts counted from `at`. */
  function Stored(faults: nat -> bool, at: nat, key: string, records: seq<Record>, n: nat): seq<Item>
    requires n <= |records|
    decreases n
  {
    if n == 0 then []
    else Stored(faults, at, key, records, n - 1) + if faults(at + n - 1) then [] else [ItemOf(key, records[n - 1])]
  }

  function Items(key: string, records: seq<Record>): seq<Item> {
    seq(|records|, i requires 0 <= i < |records| => ItemOf(key, records[i]))
  }

  lemma {:induction false} StoredAll(faults: nat -> bool, at: nat, key: string, records: seq<Record>, n: nat)
    requires n <= |records|
    ensures |Stored(faults, at, key, records, n)| <= n
    ensures |Stored(faults, at, key, records, n)| == n ==> Stored(faults, at, key, records, n) == Items(key, records[..n])
    decreases n
  {
    if n > 0 {
      StoredAll(faults, at, key, records, n - 1);
      assert Items(key, records[..n]) == Items(key, records[..n - 1]) + [ItemOf(key, records[n - 1])];
    }
  }

  lemma {:induction false} StoredPrefix(faults: nat -> bool, at: nat, key: string, records: seq<Record>, r: Record, n: nat)
    requires n <= |records|
    ensures Stored(faults, at, key, records + [r], n) == Stored(faults, at, key, records, n)
    decreases n
  {
    if n > 0 {
      StoredPrefix(faults, at, key, records, r, n - 1);
    }
  }

  // ---- Quarantining one file ----------------------------------------------------------------

  ghost predicate Grouped(complaints: seq<Complaint>, m: map<string, seq<string>>) {
    forall t :: (if t in m then m[t] else []) == Reasons(complaints, t)
  }

  /** Groups the complaints by text, keeping their order. */
  method Occurrences(complaints: seq<Complaint>) returns (m: map<string, seq<string>>)
    ensures Grouped(complaints, m)
  {
    m := map[];
    for i := 0 to |complaints|
      invariant Grouped(complaints[..i], m)
    {
      var last := complaints[i];
      assert complaints[..i + 1][..i] == complaints[..i];
      m := m[last.line := (if last.line in m then m[last.line] else []) + [last.reason]];
    }
    assert complaints[..|complaints|] == complaints;
  }

  lemma StoredStep(faults: nat -> bool, at: nat, key: string, records: seq<Record>, r: Record)
    ensures Stored(faults, at, key, records + [r], |records| + 1)
         == Stored(faults, at, key, records, |records|) + if faults(at + |records|) then [] else [ItemOf(key, r)]
  {
    StoredPrefix(faults, at, key, records, r, |records|);
  }

  function Counted(offsets: map<string, nat>, text: string): nat { if text in offsets then offsets[text] else 0 }

  /** The store after `found` was offered: all of it that did not fail is there, and no row is lost
      but by eviction (`kept` counts rows left or evicted, from `held` on). */
  predicate Progress(faults: nat -> bool, at: nat, attempts: nat, key: string, found: seq<Record>,
                     before: seq<Item>, log: seq<Item>, held: nat, kept: nat, failures: nat)
  {
    var stored := Stored(faults, at, key, found, |found|);
    && attempts == at + |found|
    && log == before + stored
    && failures + |stored| == |found|
    && kept == held + |stored|
  }

  /** The offsets count, for every text complained about, the lines so far that read so. */
  ghost predicate Tallied(c: Codec, lines: seq<Bytes>, complaints: seq<Complaint>, offsets: map<string, nat>, n: nat)
    requires n <= |lines|
  {
    forall t :: Reasons(complaints, t) != [] ==> Counted(offsets, t) == Matches(c, lines, n, t)
  }

  lemma TallyOne(c: Codec, lines: seq<Bytes>, complaints: seq<Complaint>, offsets: map<string, nat>, i: nat)
    requires i < |lines| && Tallied(c, lines, complaints, offsets, i) && Reasons(complaints, Decoded(c, lines[i])) != []
    ensures var text := Decoded(c, lines[i]);
            && Counted(offsets, text) == Matches(c, lines, i, text)
            && Tallied(c, lines, complaints, offsets[text := Counted(offsets, text) + 1], i + 1)
  {
  }

  lemma TallyNone(c: Codec, lines: seq<Bytes>, complaints: seq<Complaint>, offsets: map<string, nat>, i: nat)
    requires i < |lines| && Tallied(c, lines, complaints, offsets, i) && Reasons(complaints, Decoded(c, lines[i])) == []
    ensures Tallied(c, lines, complaints, offsets, i + 1)
  {
  }

  /** One line of the rescan, with the count the loop keeps. */
  lemma ScanLine(c: Codec, lines: seq<Bytes>, complaints: seq<Complaint>, i: nat, found: seq<Record>, k: nat)
    requires i < |lines| && Rescan(c, lines, complaints, i) == Scan(found, false)
    requires Reasons(complaints, Decoded(c, lines[i])) != [] ==> k == Matches(c, lines, i, Decoded(c, lines[i]))
    ensures var reasons := Reasons(complaints, Decoded(c, lines[i]));
            Rescan(c, lines, complaints, i + 1) ==
            if reasons == [] then Scan(found, false)
            else if k < |reasons| then Scan(found + [Record(i + 1, Offset(lines, i), lines[i], reasons[k])], false)
            else Scan(found, true)
  {
  }

  /** One capture more. */
  method Offer(e: Evidence, key: string, r: Record, failed: nat, evicted: nat,
               ghost at: nat, ghost found: seq<Record>, ghost before: seq<Item>, ghost held: nat)
      returns (failures: nat, evictions: nat)
    requires e.Valid() && Progress(e.faults, at, e.attempts, key, found, before, e.log, held, |e.rows| + evicted, failed)
    modifies e
    ensures e.Valid() && Progress(e.faults, at, e.attempts, key, found + [r], before, e.log, held, |e.rows| + evictions, failures)
  {
    ghost var attempts, log, kept := e.attempts, e.log, |e.rows|;
    var f, v := e.Capture(ItemOf(key, r));
    failures, evictions := failed + f, evicted + v;
    ProgressStep(e.faults, at, attempts, key, found, r, before, log, held, kept + evicted, failed);
  }

  lemma ProgressStep(faults: nat -> bool, at: nat, attempts: nat, key: string, found: seq<Record>, r: Record,
                     before: seq<Item>, log: seq<Item>, held: nat, kept: nat, failures: nat)
    requires Progress(faults, at, attempts, key, found, before, log, held, kept, failures)
    ensures if faults(attempts)
            then Progress(faults, at, attempts + 1, key, found + [r], before, log, held, kept, failures + 1)
            else Progress(faults, at, attempts + 1, key, found + [r], before, log + [ItemOf(key, r)], held, kept + 1, failures)
  {
    StoredStep(faults, at, key, found, r);
    assert |found + [r]| == |found| + 1;
  }

  /** Captures records one by one; what is stored is what did not fail. */
  method CaptureAll(e: Evidence, key: string, records: seq<Record>) returns (failures: nat, evictions: nat)
    requires e.Valid()
    modifies e
    ensures e.Valid()
    ensures Progress(e.faults, old(e.attempts), e.attempts, key, records, old(e.log), e.log,
                     |old(e.rows)|, |e.rows| + evictions, failures)
  {
    failures, evictions := 0, 0;
    for i := 0 to |records|
      invariant e.Valid()
      invariant Progress(e.faults, old(e.attempts), e.attempts, key, records[..i], old(e.log), e.log,
                         |old(e.rows)|, |e.rows| + evictions, failures)
    {
      failures, evictions := Offer(e, key, records[i], failures, evictions, old(e.attempts), records[..i], old(e.log), |old(e.rows)|);
      assert records[..i] + [records[i]] == records[..i + 1];
    }
    assert records[..|records|] == records;
  }

  /** The slow path: reads the file again and captures as it goes, so that a lookup out of range leaves
      the captures made before it. */
  method RescanFile(e: Evidence, c: Codec, key: string, lines: seq<Bytes>, complaints: seq<Complaint>)
      returns (raised: bool, count: nat, failures: nat, evictions: nat)
    requires e.Valid()
    modifies e
    ensures e.Valid()
    ensures var scan := Rescan(c, lines, complaints, |lines|);
            && raised == scan.raised && count == |scan.found|
            && Progress(e.faults, old(e.attempts), e.attempts, key, scan.found, old(e.log), e.log,
                        |old(e.rows)|, |e.rows| + evictions, failures)
  {
    var occurrences := Occurrences(complaints);
    var offsets: map<string, nat> := map[];
    var offset: nat := 0;
    ghost var found: seq<Record> := [];
    raised, count, failures, evictions := false, 0, 0, 0;
    ScanStarts(c, lines, complaints);
    ProgressStarts(e.faults, e.attempts, key, e.log, |e.rows|);
    for i := 0 to |lines|
      invariant e.Valid() && count == |found|
      invariant Scanned(c, lines, complaints, offsets, offset, i, found)
      invariant Progress(e.faults, old(e.attempts), e.attempts, key, found, old(e.log), e.log,
                         |old(e.rows)|, |e.rows| + evictions, failures)
    {
      var next: Option<Record>;
      raised, next, offsets := LookUp(c, lines, complaints, occurrences, offsets, i, offset, found);
      if raised {
        return;
      }
      offset := offset + |lines[i]|;
      failures, evictions := OfferNext(e, key, next, failures, evictions, old(e.attempts), found, old(e.log), |old(e.rows)|);
      found := Extended(found, next);
      count := count + if next.Some? then 1 else 0;
    }
    assert Rescan(c, lines, complaints, |lines|) == Scan(found, false);
  }

  function Extended(found: seq<Record>, next: Option<Record>): seq<Record> {
    if next.Some? then found + [next.value] else found
  }

  /** Where the loop stands after `i` lines. */
  ghost predicate Scanned(c: Codec, lines: seq<Bytes>, complaints: seq<Complaint>, offsets: map<string, nat>, offset: nat, i: nat, found: seq<Record>)
    requires i <= |lines|
  {
    offset == Offset(lines, i) && Tallied(c, lines, complaints, offsets, i) && Rescan(c, lines, complaints, i) == Scan(found, false)
  }

  lemma ScanStarts(c: Codec, lines: seq<Bytes>, complaints: seq<Complaint>)
    ensures Scanned(c, lines, complaints, map[], 0, 0, [])
  {
  }

  lemma ProgressStarts(faults: nat -> bool, at: nat, key: string, log: seq<Item>, held: nat)
    ensures Progress(faults, at, at, key, [], log, log, held, held, 0)
  {
    assert log + [] == log;
  }

  method OfferNext(e: Evidence, key: string, next: Option<Record>, failed: nat, evicted: nat,
                   ghost at: nat, ghost found: seq<Record>, ghost before: seq<Item>, ghost held: nat)
      returns (failures: nat, evictions: nat)
    requires e.Valid() && Progress(e.faults, at, e.attempts, key, found, before, e.log, held, |e.rows| + evicted, failed)
    modifies e
    ensures e.Valid()
    ensures Progress(e.faults, at, e.attempts, key, Extended(found, next), before, e.log, held, |e.rows| + evictions, failures)
  {
    failures, evictions := failed, evicted;
    if next.Some? {
      failures, evictions := Offer(e, key, next.value, failed, evicted, at, found, before, held);
    }
  }

  /** One turn of the rescan loop up to the capture: the reason for line `i`, if it is complained about. */
  method LookUp(c: Codec, lines: seq<Bytes>, complaints: seq<Complaint>, occurrences: map<string, seq<string>>,
                offsets: map<string, nat>, i: nat, offset: nat, ghost found: seq<Record>)
      returns (raised: bool, next: Option<Record>, counted: map<string, nat>)
    requires i < |lines| && Grouped(complaints, occurrences) && Scanned(c, lines, complaints, offsets, offset, i, found)
    ensures !raised ==> Scanned(c, lines, complaints, counted, offset + |lines[i]|, i + 1, Extended(found, next))
    ensures raised ==> Rescan(c, lines, complaints, |lines|) == Scan(found, true)
  {
    raised, next, counted := false, None, offsets;
    var text := Decoded(c, lines[i]);
    var reasons := if text in occurrences then occurrences[text] else [];
    if reasons == [] {
      TallyNone(c, lines, complaints, offsets, i);
      ScanLine(c, lines, complaints, i, found, 0);
    } else {
      var k := Counted(offsets, text);
      TallyOne(c, lines, complaints, offsets, i);
      ScanLine(c, lines, complaints, i, found, k);
      if k >= |reasons| {
        raised := true;
        StuckScan(c, lines, complaints, i + 1, |lines|);
      } else {
        next := Some(Record(i + 1, offset, lines[i], reasons[k]));
        counted := offsets[text := k + 1];
      }
    }
  }

  lemma {:induction false} StuckScan(c: Codec, lines: seq<Bytes>, complaints: seq<Complaint>, m: nat, n: nat)
    requires m <= n <= |lines| && Rescan(c, lines, complaints, m).raised
    ensures Rescan(c, lines, complaints, n) == Rescan(c, lines, complaints, m)
    decreases n - m
  {
    if m < n {
      StuckScan(c, lines, complaints, m, n - 1);
    }
  }

  datatype Outcome = Returned(malformed: nat, evictions: nat, failures: nat) | Raised

  /** Evidence was set aside for this very list of complaints and this file. */
  predicate SetAside(entries: seq<Entry>, id: nat, path: string) {
    exists e :: e in entries && e.id == id && e.path == path
  }

  /** `_quarantine_rum_corrupt_lines`. Whichever path it takes, a return means that the evidence offered
      to the store is the evidence of the file, and the failures counted are the items that did not get
      in. It raises exactly when the evidence had been dropped and the file is ambiguous. */
  method QuarantineLines(pre: Precollected, e: Evidence, c: Codec, id: nat, complaints: seq<Complaint>, path: string,
                         lines: seq<Bytes>, rawPrefix: string, key: string) returns (outcome: Outcome)
    requires pre.Valid() && e.Valid() && complaints == Complaints(c, lines, |lines|)
    requires forall x :: x in pre.entries && x.id == id && x.path == path ==> x.records == Records(c, lines, |lines|)
    modifies pre, e
    ensures pre.Valid() && e.Valid() && pre.entries == Forget(old(pre.entries), id) && old(e.log) <= e.log
    ensures !StartsWith(key, rawPrefix) ==>
              outcome == Returned(|complaints|, 0, |complaints|) && e.log == old(e.log) && e.rows == old(e.rows)
    ensures StartsWith(key, rawPrefix) ==>
              (outcome == Raised <==> !SetAside(old(pre.entries), id, path) && Ambiguous(c, lines))
    ensures StartsWith(key, rawPrefix) && outcome.Returned? ==>
              var records := Records(c, lines, |lines|);
              var stored := Stored(e.faults, old(e.attempts), key, records, |records|);
              && e.log == old(e.log) + stored
              && outcome.malformed == |complaints| == |records|
              && outcome.failures == |records| - |stored|
              && |e.rows| + outcome.evictions == |old(e.rows)| + |stored|
  {
    var entry := pre.Pop(id);
    OnePerComplaint(c, lines, |lines|);
    if !StartsWith(key, rawPrefix) {
      return Returned(|complaints|, 0, |complaints|);
    }
    if entry.Some? && entry.value.path == path {
      var failures, evictions := CaptureAll(e, key, entry.value.records);
      outcome := Returned(|complaints|, evictions, failures);
    } else {
      assert !SetAside(old(pre.entries), id, path) by {
        if entry.Some? {
          OtherPath(old(pre.entries), entry.value, path);
        }
      }
      var raised, count, failures, evictions := RescanFile(e, c, key, lines, complaints);
      RescanRefines(c, lines);
      outcome := if raised then Raised else Returned(|complaints|, evictions, |complaints| - count + failures);
    }
  }

  lemma OtherPath(entries: seq<Entry>, e: Entry, path: string)
    requires Distinct(entries) && e in entries && e.path != path
    ensures !SetAside(entries, e.id, path)
  {
  }

  /** No failure counted means that all malformed lines of the file were captured, byte for byte. */
  lemma NoFailureMeansCaptured(faults: nat -> bool, at: nat, key: string, records: seq<Record>)
    ensures |records| - |Stored(faults, at, key, records, |records|)| == 0 <==>
            Stored(faults, at, key, records, |records|) == Items(key, records)
  {
    StoredAll(faults, at, key, records, |records|);
    assert records[..|records|] == records;
  }

  /** Captured is not kept: an item can still be read back exactly if fewer than `CAP` were captured after it,
      and it is not the oldest one left with its file already removed by an eviction that failed. */
  lemma HeldIff(log: seq<Item>, missing: bool, i: nat)
    requires i < |log|
    ensures Kept(i, log[i]) in Readable(Newest(log), missing) <==> |log| - i <= CAP && !(missing && (i == 0 || |log| - i == CAP))
  {
    var rows := Newest(log);
    var first := |log| - |rows|;
    var kept := Readable(rows, missing);
    var skip := |rows| - |kept|;
    if i >= first + skip {
      assert kept[i - first - skip] == Kept(i, log[i]);
    } else {
      forall k | 0 <= k < |kept| ensures kept[k] != Kept(i, log[i]) {
        assert kept[k].id == first + skip + k;
      }
    }
  }

  /** So an object can evict its own evidence: all of its records captured, the `j`-th can be read back only if
      at most `CAP` of the object's records, itself included, are left from there on. */
  lemma OwnEvidence(before: seq<Item>, key: string, records: seq<Record>, j: nat)
    requires j < |records|
    ensures var log := before + Items(key, records);
            Kept(|before| + j, ItemOf(key, records[j])) in Newest(log) <==> |records| - j <= CAP
  {
    HeldIff(before + Items(key, records), false, |before| + j);
  }

  lemma {:induction false} AllMalformed(c: Codec, lines: seq<Bytes>, n: nat)
    requires n <= |lines| && forall i :: 0 <= i < |lines| ==> Classify(c, lines[i]).Corrupt?
    ensures |Records(c, lines, n)| == n
    decreases n
  {
    if n > 0 {
      AllMalformed(c, lines, n - 1);
    }
  }

  /** A file of more malformed lines than the cap: captured without a failure, whatever was stored before, and
      the evidence of its first line is gone. */
  lemma SelfEvicting(c: Codec, lines: seq<Bytes>, faults: nat -> bool, before: seq<Item>, at: nat, key: string)
    requires |lines| > CAP && (forall i :: 0 <= i < |lines| ==> Classify(c, lines[i]).Corrupt?) && forall i :: !faults(i)
    ensures var records := Records(c, lines, |lines|);
            && |records| == |lines|
            && Stored(faults, at, key, records, |records|) == Items(key, records)
            && Kept(|before|, ItemOf(key, records[0])) !in Newest(before + Items(key, records))
  {
    AllMalformed(c, lines, |lines|);
    var records := Records(c, lines, |lines|);
    NoneFail(faults, at, key, records, |records|);
    NoFailureMeansCaptured(faults, at, key, records);
    OwnEvidence(before, key, records, 0);
  }

  /** Such a file: 1001 lines of one byte that is no JSON. */
  lemma ThousandAndOneLines(faults: nat -> bool, before: seq<Item>, at: nat, key: string) returns (c: Codec, lines: seq<Bytes>)
    requires forall i :: !faults(i)
    ensures |lines| == 1001 && |Records(c, lines, |lines|)| == 1001
    ensures var records := Records(c, lines, |lines|);
            && Stored(faults, at, key, records, |records|) == Items(key, records)
            && Kept(|before|, ItemOf(key, records[0])) !in Newest(before + Items(key, records))
  {
    c, lines := BadFile(1001);
    SelfEvicting(c, lines, faults, before, at, key);
  }

  lemma BadFile(n: nat) returns (c: Codec, lines: seq<Bytes>)
    ensures |lines| == n && forall i :: 0 <= i < n ==> Classify(c, lines[i]) == Corrupt("invalid_json")
  {
    c := Codec((b: Bytes) => "", (b: Bytes) => BadJson);
    lines := seq(n, (i: int) => [120]);
    assert StripBytes([120]) == [120];
  }

  lemma {:induction false} NoneFail(faults: nat -> bool, at: nat, key: string, records: seq<Record>, n: nat)
    requires n <= |records| && forall i :: !faults(i)
    ensures |Stored(faults, at, key, records, n)| == n
    decreases n
  {
    if n > 0 {
      NoneFail(faults, at, key, records, n - 1);
    }
  }
}
