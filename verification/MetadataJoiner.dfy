/** Reading SAT's metadata file (`parseMetadataRows`): rows of `~`-separated fields in which
    a field that holds line breaks spreads one record over several rows. */
module MetadataJoiner {

  const FIELD_COUNT := 12

  type Row = seq<string>
  type Tokens = t: Row | |t| == FIELD_COUNT
    witness seq(FIELD_COUNT, _ => "")

  datatype Record = Record(uuid: string, rfcEmisor: string, nombreEmisor: string, rfcReceptor: string,
                           nombreReceptor: string, rfcPac: string, fechaEmision: string,
                           fechaCertificacionSat: string, monto: string, efectoComprobante: string,
                           estatus: string, fechaCancelacion: string)

  /** `norm` stands for trimming and lower-casing. */
  function ToRecord(t: Tokens, norm: string -> string): Record {
    Record(norm(t[0]), t[1], t[2], t[3], t[4], t[5], t[6], t[7], t[8], t[9], t[10], t[11])
  }

  /** The row continues the last of the tokens read so far. */
  function Glue(tokens: Row, row: Row): Row {
    if |tokens| > 0 && |row| > 0 then tokens[..|tokens| - 1] + [tokens[|tokens| - 1] + row[0]] + row[1..]
    else tokens + row
  }

  /** The tokens after one more row; a record is complete when there are twelve. */
  function Feed(tokens: Row, row: Row): Row {
    if |row| == FIELD_COUNT - 1 then row + [""]
    else if |row| == FIELD_COUNT then row
    else Glue(tokens, row)
  }

  /** The token lists of the complete records in `rows`, `tokens` being left over before them. */
  function Emitted(rows: seq<Row>, tokens: Row): seq<Tokens> {
    if rows == [] then []
    else
      var t := Feed(tokens, rows[0]);
      if |t| == FIELD_COUNT then [t] + Emitted(rows[1..], []) else Emitted(rows[1..], t)
  }

  /** The first record of every UUID, leaving out the UUIDs already seen. */
  function FirstPerUuid(ts: seq<Tokens>, norm: string -> string, seen: set<string>): seq<Record> {
    if ts == [] then []
    else
      var rec := ToRecord(ts[0], norm);
      if rec.uuid in seen then FirstPerUuid(ts[1..], norm, seen)
      else [rec] + FirstPerUuid(ts[1..], norm, seen + {rec.uuid})
  }

  /** What the file with these rows is read as; the first row is a header. */
  function Parsed(rows: seq<Row>, norm: string -> string): seq<Record> {
    if |rows| < 2 then [] else FirstPerUuid(Emitted(rows[1..], []), norm, {})
  }

  /** The token update for one row. */
  method TakeRow(before: Row, line: Row) returns (tokens: Row)
    ensures tokens == Feed(before, line)
  {
    tokens := before;
    var row := line;
    if |row| == FIELD_COUNT - 1 {
      row := row + [""];
    }
    if |row| == FIELD_COUNT {
      tokens := row;
    } else if |tokens| > 0 && |row| > 0 {
      tokens := tokens[|tokens| - 1 := tokens[|tokens| - 1] + row[0]];
      tokens := tokens + row[1..];
    } else {
      tokens := tokens + row;
    }
  }

  /** The records of the file: those read so far and those still to come. */
  function Outcome(done: seq<Record>, rows: seq<Row>, tokens: Row, norm: string -> string, seen: set<string>): seq<Record> {
    done + FirstPerUuid(Emitted(rows, tokens), norm, seen)
  }

  /** A row that completes no record. */
  lemma NextRow(done: seq<Record>, rows: seq<Row>, i: nat, tokens: Row, norm: string -> string, seen: set<string>)
    requires i < |rows| && |Feed(tokens, rows[i])| != FIELD_COUNT
    ensures Outcome(done, rows[i..], tokens, norm, seen) == Outcome(done, rows[i + 1..], Feed(tokens, rows[i]), norm, seen)
  {
    assert rows[i..][1..] == rows[i + 1..];
  }

  /** A row that completes one. */
  lemma NextRecord(done: seq<Record>, rows: seq<Row>, i: nat, tokens: Row, norm: string -> string, seen: set<string>)
    requires i < |rows| && |Feed(tokens, rows[i])| == FIELD_COUNT
    ensures var rec := ToRecord(Feed(tokens, rows[i]), norm);
            Outcome(done, rows[i..], tokens, norm, seen)
              == if rec.uuid in seen then Outcome(done, rows[i + 1..], [], norm, seen)
                 else Outcome(done + [rec], rows[i + 1..], [], norm, seen + {rec.uuid})
  {
    assert rows[i..][1..] == rows[i + 1..];
    var t: Tokens, more := Feed(tokens, rows[i]), Emitted(rows[i + 1..], []);
    assert ([t] + more)[1..] == more && ([t] + more)[0] == t;
    var rec := ToRecord(t, norm);
    assert (done + [rec]) + FirstPerUuid(more, norm, seen + {rec.uuid})
           == done + ([rec] + FirstPerUuid(more, norm, seen + {rec.uuid}));
  }

  lemma OutcomeAtStart(none: seq<Record>, rows: seq<Row>, tokens: Row, norm: string -> string)
    requires |rows| >= 2 && none == [] && tokens == []
    ensures Outcome(none, rows[1..], tokens, norm, {}) == Parsed(rows, norm)
  {
    assert none + Parsed(rows, norm) == Parsed(rows, norm);
  }

  lemma OutcomeAtEnd(done: seq<Record>, rows: seq<Row>, tokens: Row, norm: string -> string, seen: set<string>)
    requires rows == []
    ensures Outcome(done, rows, tokens, norm, seen) == done
  {
    assert done + [] == done;
  }

  /** The file is a header and these records. */
  ghost predicate IsFileOf(rows: seq<Row>, ws: seq<Written>) {
    |rows| > 0 && rows[1..] == AllRows(ws) && AllOk(ws)
  }

  lemma FilesRead(rows: seq<Row>, norm: string -> string)
    ensures forall ws :: IsFileOf(rows, ws) ==> ReadsFile(Parsed(rows, norm), ws, norm)
  {
    forall ws | IsFileOf(rows, ws) ensures ReadsFile(Parsed(rows, norm), ws, norm) {
      assert [rows[0]] + AllRows(ws) == rows;
      FileRead(rows[0], ws, norm);
    }
  }

  method ParseMetadataRows(rows: seq<Row>, norm: string -> string) returns (records: seq<Record>)
    ensures records == Parsed(rows, norm)
    ensures forall ws :: IsFileOf(rows, ws) ==> ReadsFile(records, ws, norm)
  {
    FilesRead(rows, norm);
    records := [];
    if |rows| < 2 {
      return;
    }
    var seen: set<string> := {};
    var tokens: Row := [];
    OutcomeAtStart(records, rows, tokens, norm);
    for i := 1 to |rows|
      invariant Outcome(records, rows[i..], tokens, norm, seen) == Parsed(rows, norm)
    {
      if |Feed(tokens, rows[i])| == FIELD_COUNT {
        NextRecord(records, rows, i, tokens, norm, seen);
      } else {
        NextRow(records, rows, i, tokens, norm, seen);
      }
      tokens := TakeRow(tokens, rows[i]);
      if |tokens| == FIELD_COUNT {
        var rec := ToRecord(tokens, norm);
        if rec.uuid !in seen {
          seen := seen + {rec.uuid};
          records := records + [rec];
        }
        tokens := [];
      }
    }
    OutcomeAtEnd(records, rows[|rows|..], tokens, norm, seen);
  }

  // ------------------------------------------------------------ first per UUID

  ghost predicate DistinctUuids(rs: seq<Record>) {
    forall i, j :: 0 <= i < j < |rs| ==> rs[i].uuid != rs[j].uuid
  }

  /** `r` is read from `ts`, with no record of the same UUID before it. */
  ghost predicate IsFirst(ts: seq<Tokens>, norm: string -> string, r: Record) {
    exists k :: 0 <= k < |ts| && FirstAt(ts, norm, r, k)
  }

  ghost predicate FirstAt(ts: seq<Tokens>, norm: string -> string, r: Record, k: nat)
    requires k < |ts|
  {
    ToRecord(ts[k], norm) == r && forall j :: 0 <= j < k ==> norm(ts[j][0]) != r.uuid
  }

  /** One record per UUID, and none of a UUID already seen. */
  lemma {:induction false} FirstPerUuidDistinct(ts: seq<Tokens>, norm: string -> string, seen: set<string>)
    ensures var rs := FirstPerUuid(ts, norm, seen);
            DistinctUuids(rs) && forall i :: 0 <= i < |rs| ==> rs[i].uuid !in seen
  {
    if ts != [] {
      var rec := ToRecord(ts[0], norm);
      FirstPerUuidDistinct(ts[1..], norm, if rec.uuid in seen then seen else seen + {rec.uuid});
    }
  }

  lemma IsFirstTail(ts: seq<Tokens>, norm: string -> string, r: Record)
    requires ts != []
    ensures var rec := ToRecord(ts[0], norm);
            IsFirst(ts, norm, r) <==> r == rec || (r.uuid != rec.uuid && IsFirst(ts[1..], norm, r))
  {
    var rest := ts[1..];
    if r != ToRecord(ts[0], norm) && IsFirst(ts, norm, r) {
      var k :| 0 <= k < |ts| && FirstAt(ts, norm, r, k);
      assert FirstAt(rest, norm, r, k - 1);
    }
    if r.uuid != norm(ts[0][0]) && IsFirst(rest, norm, r) {
      var k :| 0 <= k < |rest| && FirstAt(rest, norm, r, k);
      assert FirstAt(ts, norm, r, k + 1);
    }
    assert r == ToRecord(ts[0], norm) ==> FirstAt(ts, norm, r, 0);
  }

  /** The records kept are exactly the first ones of the UUIDs not yet seen. */
  lemma {:induction false} FirstPerUuidKeepsFirsts(ts: seq<Tokens>, norm: string -> string, seen: set<string>, r: Record)
    ensures r in FirstPerUuid(ts, norm, seen) <==> IsFirst(ts, norm, r) && r.uuid !in seen
  {
    if ts != [] {
      var rec := ToRecord(ts[0], norm);
      IsFirstTail(ts, norm, r);
      FirstPerUuidKeepsFirsts(ts[1..], norm, if rec.uuid in seen then seen else seen + {rec.uuid}, r);
    }
  }

  /** No UUID occurs twice in what a file is read as. */
  lemma ParsedDistinct(rows: seq<Row>, norm: string -> string)
    ensures DistinctUuids(Parsed(rows, norm))
  {
    if |rows| >= 2 {
      FirstPerUuidDistinct(Emitted(rows[1..], []), norm, {});
    }
  }

  // ------------------------------------------------------------ line splitting

  /** A field as the list of lines it is written on. */
  type Field = f: seq<string> | |f| > 0 witness [""]

  function Concat(f: seq<string>): string {
    if f == [] then "" else f[0] + Concat(f[1..])
  }

  function Join(fs: seq<Field>): (r: Row)
    ensures |r| == |fs|
  {
    if fs == [] then [] else [Concat(fs[0])] + Join(fs[1..])
  }

  /** The rows the fields are written on, the current row already holding `cur`. */
  function Lines(fs: seq<Field>, cur: Row): seq<Row>
    decreases |fs|, if |fs| > 0 then |fs[0]| else 0
  {
    if fs == [] then [cur]
    else if |fs[0]| == 1 then Lines(fs[1..], cur + [fs[0][0]])
    else [cur + [fs[0][0]]] + Lines([fs[0][1..]] + fs[1..], [])
  }

  /** A record as SAT writes it: twelve fields, or eleven without a cancellation date. */
  datatype Written = Full(fields: seq<Field>) | NoCancelDate(row: Row) {

    /** Line breaks occur only in the third to the tenth of the twelve fields. */
    ghost predicate Ok() {
      match this
      case Full(fs) => |fs| == FIELD_COUNT && forall i :: 0 <= i < |fs| && |fs[i]| > 1 ==> 2 <= i <= 9
      case NoCancelDate(row) => |row| == FIELD_COUNT - 1
    }

    function Rows(): seq<Row> {
      match this
      case Full(fs) => Lines(fs, [])
      case NoCancelDate(row) => [row]
    }

    /** The text of field `i`, its line breaks taken out; a missing cancellation date is empty. */
    function Value(i: nat): string
      requires Ok() && i < FIELD_COUNT
    {
      match this
      case Full(fs) => Concat(fs[i])
      case NoCancelDate(row) => if i < 11 then row[i] else ""
    }

    /** The record with the line breaks taken out. */
    function Whole(): Tokens
      requires Ok()
    {
      match this
      case Full(fs) => Join(fs)
      case NoCancelDate(row) => row + [""]
    }
  }

  lemma ConcatOne(f: seq<string>)
    requires |f| == 1
    ensures Concat(f) == f[0]
  {
    assert f[1..] == [];
  }

  lemma JoinHead(f: Field, fs: seq<Field>)
    ensures Join([f] + fs) == [Concat(f)] + Join(fs)
  {
    assert ([f] + fs)[1..] == fs;
  }

  /** Gluing the broken field on, and the rest after it, in either order. */
  lemma GlueBreak(tokens: Row, cur: Row, f: Field, fs: seq<Field>)
    requires |f| > 1
    ensures Glue(Glue(tokens, cur + [f[0]]), Join([f[1..]] + fs)) == Glue(tokens, cur + Join([f] + fs))
  {
    JoinHead(f, fs);
    JoinHead(f[1..], fs);
    GlueTwice(tokens, cur, f[0], Concat(f[1..]), Join(fs));
  }

  lemma GlueTwice(tokens: Row, cur: Row, x: string, y: string, after: Row)
    ensures Glue(Glue(tokens, cur + [x]), [y] + after) == Glue(tokens, cur + ([x + y] + after))
  {
    if cur == [] && |tokens| > 0 {
      GlueEnd(tokens, x, y, after);
      assert cur + [x] == [x] && cur + ([x + y] + after) == [x + y] + after;
    } else {
      GlueFresh(tokens, cur, [x]);
      GlueFresh(tokens, cur, [x + y] + after);
      GlueOn(Glue(tokens, cur), x, y, after);
    }
  }

  lemma GlueEnd(tokens: Row, x: string, y: string, after: Row)
    requires |tokens| > 0
    ensures Glue(Glue(tokens, [x]), [y] + after) == Glue(tokens, [x + y] + after)
  {
    var init, last := tokens[..|tokens| - 1], tokens[|tokens| - 1];
    assert (last + x) + y == last + (x + y);
    GlueOn(init, last + x, y, after);
    assert Glue(tokens, [x]) == init + [last + x];
    assert Glue(tokens, [x + y] + after) == init + [last + (x + y)] + after;
  }

  lemma GlueOn(init: Row, x: string, y: string, after: Row)
    ensures Glue(init + [x], [y] + after) == init + ([x + y] + after)
  {
    var t, row := init + [x], [y] + after;
    assert t[..|t| - 1] == init && t[|t| - 1] == x && row[1..] == after && row[0] == y;
  }

  /** A line that holds more than the end of a broken field. */
  lemma GlueFresh(tokens: Row, cur: Row, more: Row)
    requires (cur != [] || tokens == []) && more != []
    ensures Glue(tokens, cur + more) == Glue(tokens, cur) + more
  {
    if cur != [] && tokens != [] {
      assert (cur + more)[1..] == cur[1..] + more;
    }
  }

  /** The lines that are left of a record, read after `tokens`, complete it. */
  ghost predicate ReadsBack(lines: seq<Row>, tokens: Row, record: Row, rest: seq<Row>) {
    |record| == FIELD_COUNT && Emitted(lines + rest, tokens) == [record] + Emitted(rest, [])
  }

  /** The last line of a record. */
  lemma LastLine(cur: Row, tokens: Row, rest: seq<Row>)
    requires |cur| + (if |tokens| > 0 then |tokens| - 1 else 0) == FIELD_COUNT
    requires |tokens| > 0 ==> 3 <= |tokens| <= 10
    ensures ReadsBack([cur], tokens, Glue(tokens, cur), rest)
  {
    assert ([cur] + rest)[1..] == rest;
    if tokens == [] {
      assert Glue(tokens, cur) == cur;
    }
  }

  /** A line that ends at a break inside field `f`. */
  lemma BrokenLine(f: Field, after: seq<Field>, cur: Row, tokens: Row, rest: seq<Row>)
    requires |f| > 1 && |Feed(tokens, cur + [f[0]])| != FIELD_COUNT
    requires Feed(tokens, cur + [f[0]]) == Glue(tokens, cur + [f[0]])
    requires var fs' := [f[1..]] + after;
             ReadsBack(Lines(fs', []), Glue(tokens, cur + [f[0]]), Glue(Glue(tokens, cur + [f[0]]), Join(fs')), rest)
    ensures ReadsBack(Lines([f] + after, cur), tokens, Glue(tokens, cur + Join([f] + after)), rest)
  {
    var row, fs' := cur + [f[0]], [f[1..]] + after;
    assert ([f] + after)[1..] == after;
    assert Lines([f] + after, cur) == [row] + Lines(fs', []);
    GlueBreak(tokens, cur, f, after);
    OneRowRead(row, Lines(fs', []), rest, tokens);
  }

  /** Of the fields still to be read, those that hold breaks are among the third to the tenth. */
  ghost predicate BreaksOk(fs: seq<Field>) {
    |fs| <= FIELD_COUNT && forall i :: 0 <= i < |fs| && |fs[i]| > 1 ==> 2 <= FIELD_COUNT - |fs| + i <= 9
  }

  /** With `tokens` and the current row behind them, `fs` are the last fields of a record. */
  ghost predicate Midway(fs: seq<Field>, cur: Row, tokens: Row) {
    && BreaksOk(fs)
    && |cur| + (if |tokens| > 0 then |tokens| - 1 else 0) == FIELD_COUNT - |fs|
    && (|tokens| > 0 ==> 3 <= |tokens| <= 10)
  }

  lemma MidwayNext(fs: seq<Field>, cur: Row, tokens: Row, x: string)
    requires fs != [] && Midway(fs, cur, tokens)
    ensures Midway(fs[1..], cur + [x], tokens)
  {
    assert forall i :: 0 <= i < |fs[1..]| ==> fs[1..][i] == fs[i + 1];
  }

  lemma MidwayBreak(fs: seq<Field>, cur: Row, tokens: Row)
    requires fs != [] && |fs[0]| > 1 && Midway(fs, cur, tokens)
    ensures var (row, fs') := (cur + [fs[0][0]], [fs[0][1..]] + fs[1..]);
            && Feed(tokens, row) == Glue(tokens, row) && |Glue(tokens, row)| != FIELD_COUNT
            && Midway(fs', [], Glue(tokens, row))
  {
    var fs' := [fs[0][1..]] + fs[1..];
    assert forall i :: 0 < i < |fs'| ==> fs'[i] == fs[i];
    assert 2 <= FIELD_COUNT - |fs| + 0 <= 9;
  }

  /** A field without breaks goes on the current line. */
  lemma LineGoesOn(fs: seq<Field>, cur: Row)
    requires fs != [] && |fs[0]| == 1
    ensures Lines(fs, cur) == Lines(fs[1..], cur + [fs[0][0]])
    ensures (cur + [fs[0][0]]) + Join(fs[1..]) == cur + Join(fs)
  {
    ConcatOne(fs[0]);
  }

  /** The rows of one record, read after `tokens`, give back that record. */
  lemma {:induction false} RecordReadBack(fs: seq<Field>, cur: Row, tokens: Row, rest: seq<Row>)
    requires Midway(fs, cur, tokens)
    ensures ReadsBack(Lines(fs, cur), tokens, Glue(tokens, cur + Join(fs)), rest)
    decreases |fs|, if |fs| > 0 then |fs[0]| else 0
  {
    if fs == [] {
      assert cur + Join(fs) == cur;
      LastLine(cur, tokens, rest);
    } else if |fs[0]| == 1 {
      LineGoesOn(fs, cur);
      MidwayNext(fs, cur, tokens, fs[0][0]);
      RecordReadBack(fs[1..], cur + [fs[0][0]], tokens, rest);
    } else {
      var row, fs' := cur + [fs[0][0]], [fs[0][1..]] + fs[1..];
      assert fs == [fs[0]] + fs[1..];
      MidwayBreak(fs, cur, tokens);
      RecordReadBack(fs', [], Glue(tokens, row), rest);
      assert [] + Join(fs') == Join(fs');
      BrokenLine(fs[0], fs[1..], cur, tokens, rest);
    }
  }

  /** A row that does not complete a record is left over for the rows after it. */
  lemma OneRowRead(row: Row, lines: seq<Row>, rest: seq<Row>, tokens: Row)
    requires |Feed(tokens, row)| != FIELD_COUNT
    ensures Emitted(([row] + lines) + rest, tokens) == Emitted(lines + rest, Feed(tokens, row))
  {
    assert (([row] + lines) + rest)[1..] == lines + rest;
  }

  function AllRows(ws: seq<Written>): seq<Row> {
    if ws == [] then [] else ws[0].Rows() + AllRows(ws[1..])
  }

  function Wholes(ws: seq<Written>): (ts: seq<Tokens>)
    requires forall w :: w in ws ==> w.Ok()
    ensures |ts| == |ws| && forall i :: 0 <= i < |ws| ==> ts[i] == ws[i].Whole()
  {
    if ws == [] then [] else [ws[0].Whole()] + Wholes(ws[1..])
  }

  lemma {:induction false} RecordsReadBack(ws: seq<Written>)
    requires forall w :: w in ws ==> w.Ok()
    ensures Emitted(AllRows(ws), []) == Wholes(ws)
  {
    if ws != [] {
      RecordsReadBack(ws[1..]);
      assert ws[0] in ws;
      match ws[0]
      case Full(fs) =>
        RecordReadBack(fs, [], [], AllRows(ws[1..]));
        assert Glue([], [] + Join(fs)) == Join(fs);
      case NoCancelDate(row) =>
        assert AllRows(ws)[1..] == AllRows(ws[1..]);
    }
  }

  /** The joiner undoes the splitting: a file of records, whose line breaks fall only in the
      third to tenth fields, is read as the first of those records for every UUID. */
  lemma JoinerInvertsSplitting(header: Row, ws: seq<Written>, norm: string -> string)
    requires AllOk(ws)
    ensures Parsed([header] + AllRows(ws), norm) == FirstPerUuid(Wholes(ws), norm, {})
  {
    RecordsReadBack(ws);
    assert ([header] + AllRows(ws))[1..] == AllRows(ws);
    if AllRows(ws) == [] {
      assert Wholes(ws) == [];
    }
  }

  // ------------------------------------------------------------ what the records hold

  /** The record has the fields that are written, each in its place. */
  ghost predicate Holds(r: Record, w: Written, norm: string -> string)
    requires w.Ok()
  {
    && r.uuid == norm(w.Value(0)) && r.rfcEmisor == w.Value(1) && r.nombreEmisor == w.Value(2)
    && r.rfcReceptor == w.Value(3) && r.nombreReceptor == w.Value(4) && r.rfcPac == w.Value(5)
    && r.fechaEmision == w.Value(6) && r.fechaCertificacionSat == w.Value(7) && r.monto == w.Value(8)
    && r.efectoComprobante == w.Value(9) && r.estatus == w.Value(10) && r.fechaCancelacion == w.Value(11)
  }

  /** Record `k` is the first written with its UUID. */
  ghost predicate FirstWritten(ws: seq<Written>, norm: string -> string, k: nat)
    requires AllOk(ws) && k < |ws|
  {
    forall j :: 0 <= j < k ==> norm(ws[j].Value(0)) != norm(ws[k].Value(0))
  }

  ghost predicate AllOk(ws: seq<Written>) {
    forall w :: w in ws ==> w.Ok()
  }

  /** The records read are those written first with their UUID, field by field, one for each. */
  ghost predicate ReadsFile(rs: seq<Record>, ws: seq<Written>, norm: string -> string)
    requires AllOk(ws)
  {
    && DistinctUuids(rs)
    && (forall k :: 0 <= k < |ws| && FirstWritten(ws, norm, k) ==> exists r :: r in rs && Holds(r, ws[k], norm))
    && (forall r :: r in rs ==> exists k :: 0 <= k < |ws| && FirstWritten(ws, norm, k) && Holds(r, ws[k], norm))
  }

  lemma {:induction false} JoinAt(fs: seq<Field>, i: nat)
    requires i < |fs|
    ensures Join(fs)[i] == Concat(fs[i])
    decreases i
  {
    if i > 0 {
      JoinAt(fs[1..], i - 1);
    }
  }

  lemma WholeAt(w: Written, i: nat)
    requires w.Ok() && i < FIELD_COUNT
    ensures w.Whole()[i] == w.Value(i)
  {
    if w.Full? {
      JoinAt(w.fields, i);
    }
  }

  lemma WholeHolds(w: Written, norm: string -> string)
    requires w.Ok()
    ensures Holds(ToRecord(w.Whole(), norm), w, norm)
  {
    forall i | 0 <= i < FIELD_COUNT ensures w.Whole()[i] == w.Value(i) {
      WholeAt(w, i);
    }
  }

  lemma HoldsOnly(r: Record, w: Written, norm: string -> string)
    requires w.Ok() && Holds(r, w, norm)
    ensures r == ToRecord(w.Whole(), norm)
  {
    WholeHolds(w, norm);
  }

  lemma FirstIsFirst(ws: seq<Written>, norm: string -> string, k: nat)
    requires AllOk(ws) && k < |ws|
    ensures FirstWritten(ws, norm, k) <==> FirstAt(Wholes(ws), norm, ToRecord(Wholes(ws)[k], norm), k)
  {
    forall j | 0 <= j <= k ensures Wholes(ws)[j][0] == ws[j].Value(0) {
      WholeAt(ws[j], 0);
    }
  }

  /** A file of records, broken over lines or without a cancellation date, is read field by field. */
  lemma FileRead(header: Row, ws: seq<Written>, norm: string -> string)
    requires AllOk(ws)
    ensures ReadsFile(Parsed([header] + AllRows(ws), norm), ws, norm)
  {
    var rs, ts := Parsed([header] + AllRows(ws), norm), Wholes(ws);
    JoinerInvertsSplitting(header, ws, norm);
    ParsedDistinct([header] + AllRows(ws), norm);
    forall k | 0 <= k < |ws| && FirstWritten(ws, norm, k) ensures exists r :: r in rs && Holds(r, ws[k], norm) {
      var r := ToRecord(ts[k], norm);
      WholeHolds(ws[k], norm);
      FirstIsFirst(ws, norm, k);
      FirstPerUuidKeepsFirsts(ts, norm, {}, r);
    }
    forall r | r in rs ensures exists k :: 0 <= k < |ws| && FirstWritten(ws, norm, k) && Holds(r, ws[k], norm) {
      FirstPerUuidKeepsFirsts(ts, norm, {}, r);
      var k :| 0 <= k < |ts| && FirstAt(ts, norm, r, k);
      WholeHolds(ws[k], norm);
      FirstIsFirst(ws, norm, k);
    }
  }

  /** One record broken once, between two pieces of its field `k`. */
  function BrokenOnce(t: Tokens, k: nat, left: string, right: string): seq<Row>
    requires k < FIELD_COUNT
  {
    [t[..k] + [left], [right] + t[k + 1..]]
  }

  lemma BreakInFirst(t: Tokens, left: string, right: string)
    requires t[0] == left + right && left != "" && right != ""
    ensures Emitted(BrokenOnce(t, 0, left, right), []) != [t]
  {
    var first, second := t[..0] + [left], [right] + t[1..];
    EmittedTwo(first, second);
    assert |second| == FIELD_COUNT && second[0] == right && |right| < |t[0]|;
  }

  lemma BreakInSecond(t: Tokens, left: string, right: string)
    requires t[1] == left + right && left != "" && right != ""
    ensures Emitted(BrokenOnce(t, 1, left, right), []) != [t]
  {
    var first, second := t[..1] + [left], [right] + t[2..];
    EmittedTwo(first, second);
    var e := second + [""];
    assert Emitted([first, second], []) == [e];
    if e == t {
      EqualToShift(t, right);
    }
  }

  lemma BreakInside(t: Tokens, k: nat, left: string, right: string)
    requires 2 <= k <= 9 && t[k] == left + right
    ensures Emitted(BrokenOnce(t, k, left, right), []) == [t]
  {
    var first, second := t[..k] + [left], [right] + t[k + 1..];
    EmittedTwo(first, second);
    assert Feed([], first) == first;
    assert Feed(first, second) == first[..k] + [left + right] + t[k + 1..];
    assert first[..k] == t[..k] && t[..k] + [t[k]] + t[k + 1..] == t;
  }

  lemma BreakNearEnd(t: Tokens, k: nat, left: string, right: string)
    requires 10 <= k < FIELD_COUNT && t[k] == left + right && right != ""
    ensures Emitted(BrokenOnce(t, k, left, right), []) != [t]
  {
    var first, second := t[..k] + [left], [right] + t[k + 1..];
    EmittedTwo(first, second);
    var e := Feed([], first);
    assert |e| == FIELD_COUNT && e[k] == left && |left| < |t[k]|;
    assert Emitted([first, second], [])[0] == e && [t][0] == t;
  }

  /** And only those fields may hold a line break: a record broken once between two non-empty
      pieces comes back exactly when the break lies in the third to the tenth field. */
  lemma BreakPositions(t: Tokens, k: nat, left: string, right: string)
    requires k < FIELD_COUNT && t[k] == left + right && left != "" && right != ""
    ensures Emitted(BrokenOnce(t, k, left, right), []) == [t] <==> 2 <= k <= 9
  {
    if k == 0 {
      BreakInFirst(t, left, right);
    } else if k == 1 {
      BreakInSecond(t, left, right);
    } else if k <= 9 {
      BreakInside(t, k, left, right);
    } else {
      BreakNearEnd(t, k, left, right);
    }
  }

  lemma EmittedOne(row: Row, tokens: Row)
    ensures Emitted([row], tokens) == if |Feed(tokens, row)| == FIELD_COUNT then [Feed(tokens, row)] else []
  {
    assert [row][1..] == [];
  }

  lemma EmittedTwo(a: Row, b: Row)
    ensures var t := Feed([], a);
            Emitted([a, b], []) ==
              if |t| == FIELD_COUNT then [t] + (if |Feed([], b)| == FIELD_COUNT then [Feed([], b)] else [])
              else if |Feed(t, b)| == FIELD_COUNT then [Feed(t, b)] else []
  {
    assert [a, b][1..] == [b];
    EmittedOne(b, []);
    EmittedOne(b, Feed([], a));
  }

  /** A record equal to its own tail shifted by one field has an empty second field. */
  lemma EqualToShift(t: Tokens, right: string)
    requires t == [right] + t[2..] + [""]
    ensures t[1] == ""
  {
    assert t[11] == "";
    assert forall i {:trigger t[i]} :: 1 <= i < 11 ==> t[i] == t[i + 1];
    assert t[10] == "" && t[9] == "" && t[8] == "" && t[7] == "" && t[6] == "" && t[5] == "" && t[4] == "";
  }
}
