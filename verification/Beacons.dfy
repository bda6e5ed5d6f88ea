/** RUM beacon files: what a file holds and what is wrong with it, said of its lines and the decoder alone
    (backend/core/rum_ingest.py). */
module Beacons {
  import opened Wrappers

  type Byte = b: int | 0 <= b < 256
  type Bytes = seq<Byte>
  type Row = string

  // ---- Lines --------------------------------------------------------------------------------

  predicate BlankByte(b: Byte) { 9 <= b <= 13 || b == 32 }

  function StripBytes(s: Bytes): Bytes {
    if s == [] then []
    else if BlankByte(s[0]) then StripBytes(s[1..])
    else if BlankByte(s[|s| - 1]) then StripBytes(s[..|s| - 1])
    else s
  }

  /** Nothing but tabs, line breaks and spaces. */
  predicate Blanks(s: Bytes) {
    forall i :: 0 <= i < |s| ==> s[i] == 9 || s[i] == 10 || s[i] == 11 || s[i] == 12 || s[i] == 13 || s[i] == 32
  }

  /** Stripping takes the blank bytes off both ends, and all of them. */
  lemma {:induction false} StripBytesIs(s: Bytes) returns (before: Bytes, after: Bytes)
    ensures s == before + StripBytes(s) + after && Blanks(before) && Blanks(after)
    decreases |s|
  {
    before, after := [], [];
    if s != [] && BlankByte(s[0]) {
      var b, a := StripBytesIs(s[1..]);
      before, after := [s[0]] + b, a;
      assert s == [s[0]] + (b + StripBytes(s) + a);
    } else if s != [] && BlankByte(s[|s| - 1]) {
      var b, a := StripBytesIs(s[..|s| - 1]);
      before, after := b, a + [s[|s| - 1]];
      assert s == (b + StripBytes(s) + a) + [s[|s| - 1]];
    }
  }

  lemma {:induction false} StripBytesEnds(s: Bytes)
    requires StripBytes(s) != []
    ensures StripBytes(s)[0] !in [9, 10, 11, 12, 13, 32] && StripBytes(s)[|StripBytes(s)| - 1] !in [9, 10, 11, 12, 13, 32]
    decreases |s|
  {
    if BlankByte(s[0]) {
      StripBytesEnds(s[1..]);
    } else if BlankByte(s[|s| - 1]) {
      StripBytesEnds(s[..|s| - 1]);
    }
  }

  /** What the JSON decoder and the beacon parser make of a stripped line. */
  datatype Verdict =
    | BadJson
    | Raises(message: string)
    | Ignored
    | Rows(vitals: seq<Row>, errors: seq<Row>)

  /** Library behaviour the model leaves open: decoding with replacement, and parsing. */
  datatype Codec = Codec(decode: Bytes -> string, parse: Bytes -> Verdict)

  /** The rows of one line: those of a line that is not blank and parses to rows. */
  function VitalsIn(c: Codec, line: Bytes): seq<Row> {
    var s := StripBytes(line);
    if s != [] && c.parse(s).Rows? then c.parse(s).vitals else []
  }

  function ErrorsIn(c: Codec, line: Bytes): seq<Row> {
    var s := StripBytes(line);
    if s != [] && c.parse(s).Rows? then c.parse(s).errors else []
  }

  function First200(s: string): string { if |s| > 200 then s[..200] else s }

  /** What is wrong with a line, if anything: a line that is not blank and is no JSON, is refused, or holds nothing. */
  function Fault(c: Codec, line: Bytes): Option<string> {
    var s := StripBytes(line);
    if s == [] then None
    else if c.parse(s).BadJson? then Some("invalid_json")
    else if c.parse(s).Raises? then
      var m := c.parse(s).message;
      Some(if m == "missing_timestamp" then m
           else if "invalid_timestamp: " <= m then First200(m)
           else if "invalid_timestamp" <= m then First200("invalid_timestamp: " + m)
           else First200("parse_error: " + m))
    else if c.parse(s).Rows? && |c.parse(s).vitals| + |c.parse(s).errors| == 0 then Some("empty_beacon_payload")
    else None
  }

  /** The error category of a faulty line. */
  function CategoryFor(verdict: Verdict): string {
    if verdict.Raises? then
      if verdict.message == "missing_timestamp" then "missing_timestamp"
      else if "invalid_timestamp" <= verdict.message then "invalid_timestamp"
      else "parse_error"
    else if verdict.BadJson? then "invalid_json"
    else "empty_beacon_payload"
  }

  // ---- Files --------------------------------------------------------------------------------

  /** The rows of a file: those of its lines, in order. */
  function VitalRows(c: Codec, lines: seq<Bytes>): seq<Row> {
    if lines == [] then [] else VitalsIn(c, lines[0]) + VitalRows(c, lines[1..])
  }

  function ErrorRows(c: Codec, lines: seq<Bytes>): seq<Row> {
    if lines == [] then [] else ErrorsIn(c, lines[0]) + ErrorRows(c, lines[1..])
  }

  datatype Record = Record(ordinal: nat, offset: nat, raw: Bytes, reason: string)

  /** The faulty lines from number `i` on, the first of which starts at byte `at`. */
  function FaultsFrom(c: Codec, lines: seq<Bytes>, i: nat, at: nat): seq<Record>
    requires i <= |lines|
    decreases |lines| - i
  {
    if i == |lines| then []
    else
      (if Fault(c, lines[i]).Some? then [Record(i + 1, at, lines[i], Fault(c, lines[i]).value)] else [])
      + FaultsFrom(c, lines, i + 1, at + |lines[i]|)
  }

  /** The faulty lines of a file: number, place, bytes and reason of each. */
  function Faults(c: Codec, lines: seq<Bytes>): seq<Record> { FaultsFrom(c, lines, 0, 0) }

  datatype Item = Item(key: string, record: Record, category: string)

  /** The evidence of a file that has the given key. */
  function Proofs(c: Codec, lines: seq<Bytes>, key: string): seq<Item> {
    var faults := Faults(c, lines);
    seq(|faults|, i requires 0 <= i < |faults| => Item(key, faults[i], CategoryFor(c.parse(StripBytes(faults[i].raw)))))
  }
}
