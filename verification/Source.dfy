/** The replaying CSV source: the records of one file, read over and over, each with the
    number of its pass and its place in that pass. */
module Source {
  import opened Telemetry

  const HEADERS: seq<string> := ["timestamp", "metric_name", "gpu_id", "device", "uuid", "modelName",
                                 "Hostname", "container", "pod", "namespace", "value", "labels_raw"]
  const MAX_MEASUREMENT_BYTES := 61440

  /** One CSV record as the reader returns it: its fields, a syntax error, or an I/O error. */
  datatype Record = Fields(values: seq<string>) | Malformed | Unreadable

  /** The library calls a record goes through: time, number and JSON text length. */
  datatype Codec = Codec(time: string -> Option<Instant>, float: string -> Option<Float>,
                         encode: Measurement -> Option<nat>)

  datatype Reading = Good(measurement: Measurement) | Bad | Broken

  /** A record read: its pass, its place in the pass counting from one, and what it held. */
  datatype Read = Read(replay: nat, row: nat, reading: Reading)

  type Columns = map<string, nat>

  // ---------------------------------------------------------------- columns

  /** Which column each header names. */
  function Layout(header: seq<string>): Columns {
    if header == [] then map[]
    else Layout(header[..|header| - 1])[header[|header| - 1] := |header| - 1]
  }

  ghost predicate HeaderFits(header: seq<string>) {
    && (forall i, j :: 0 <= i < j < |header| ==> header[i] != header[j])
    && (forall name :: name in HEADERS ==> name in header)
  }

  lemma HeaderRepeats(header: seq<string>, i: nat)
    requires i < |header| && header[i] in header[..i]
    ensures !HeaderFits(header)
  {
  }

  lemma HeaderMisses(header: seq<string>, n: nat)
    requires n < |HEADERS| && HEADERS[n] !in header
    ensures !HeaderFits(header)
  {
  }

  lemma {:induction false} LayoutFinds(header: seq<string>)
    ensures forall name :: name in Layout(header) <==> name in header
    ensures forall name :: name in Layout(header) ==>
             && Layout(header)[name] < |header|
             && header[Layout(header)[name]] == name
  {
    if header != [] {
      var prior := header[..|header| - 1];
      LayoutFinds(prior);
      assert header == prior + [header[|header| - 1]];
    }
  }

  /** The field of a record under the column of that name. */
  function Field(columns: Columns, values: seq<string>, name: string): string {
    if name in columns && columns[name] < |values| then values[columns[name]] else ""
  }

  function Fill(columns: Columns, values: seq<string>, time: Instant, value: Float): Measurement {
    Measurement(time, Field(columns, values, "uuid"), Field(columns, values, "metric_name"), value,
                Field(columns, values, "gpu_id"), Field(columns, values, "device"),
                Field(columns, values, "modelName"), Field(columns, values, "Hostname"),
                Field(columns, values, "container"), Field(columns, values, "pod"),
                Field(columns, values, "namespace"), Field(columns, values, "labels_raw"))
  }

  /** What a record holds. The reader itself refuses a record as wide as no header. */
  function Decode(columns: Columns, width: nat, codec: Codec, record: Record): Reading {
    match record
    case Unreadable => Broken
    case Malformed => Bad
    case Fields(values) =>
      var time, value := codec.time(Field(columns, values, "timestamp")), codec.float(Field(columns, values, "value"));
      if |values| != width || time.None? || value.None? then Bad
      else
        var m := Fill(columns, values, time.value, value.value);
        if !m.Validate() || codec.encode(m).None? || codec.encode(m).value > MAX_MEASUREMENT_BYTES then Bad
        else Good(m)
  }

  /** What a measurement says about a value found under a column's name. Other columns say nothing. */
  predicate Says(m: Measurement, codec: Codec, name: string, value: string) {
    if name == "timestamp" then codec.time(value) == Some(m.sourceTimestamp)
    else if name == "metric_name" then m.metricName == value
    else if name == "gpu_id" then m.localGpuId == value
    else if name == "device" then m.device == value
    else if name == "uuid" then m.gpuUuid == value
    else if name == "modelName" then m.modelName == value
    else if name == "Hostname" then m.hostname == value
    else if name == "container" then m.container == value
    else if name == "pod" then m.pod == value
    else if name == "namespace" then m.namespace == value
    else if name == "value" then codec.float(value) == Some(m.value)
    else name == "labels_raw" ==> m.labelsRaw == value
  }

  lemma OthersSayNothing(m: Measurement, codec: Codec, name: string, value: string)
    requires name !in HEADERS
    ensures Says(m, codec, name, value)
  {
    assert forall n :: 0 <= n < |HEADERS| ==> HEADERS[n] != name;
    NamesAre();
  }

  lemma NamesAre()
    ensures HEADERS[0] == "timestamp" && HEADERS[1] == "metric_name" && HEADERS[2] == "gpu_id" && HEADERS[3] == "device"
    ensures HEADERS[4] == "uuid" && HEADERS[5] == "modelName" && HEADERS[6] == "Hostname" && HEADERS[7] == "container"
    ensures HEADERS[8] == "pod" && HEADERS[9] == "namespace" && HEADERS[10] == "value" && HEADERS[11] == "labels_raw"
  {
  }

  lemma OneColumn(header: seq<string>, i: nat, k: nat)
    requires HeaderFits(header) && i < |header| && k < |header| && header[i] == header[k]
    ensures i == k
  {
  }

  /** A record's value in column `k` is its field of that column's name. */
  lemma FieldAt(header: seq<string>, values: seq<string>, k: nat)
    requires HeaderFits(header) && |values| == |header| && k < |header|
    ensures Field(Layout(header), values, header[k]) == values[k]
  {
    hide HeaderFits, Layout;
    LayoutFinds(header);
    assert header[k] in header;
    OneColumn(header, Layout(header)[header[k]], k);
  }

  /** What the measurement says of every column, it says of every name. */
  lemma SaysByName(m: Measurement, codec: Codec, header: seq<string>, values: seq<string>)
    requires HeaderFits(header) && |values| == |header|
    ensures (forall k :: 0 <= k < |header| ==> Says(m, codec, header[k], values[k]))
       <==> (forall n :: 0 <= n < |HEADERS| ==> Says(m, codec, HEADERS[n], Field(Layout(header), values, HEADERS[n])))
  {
    hide Says, Layout, Field;
    forall k: nat | k < |header| ensures Field(Layout(header), values, header[k]) == values[k] {
      FieldAt(header, values, k);
    }
    if forall k :: 0 <= k < |header| ==> Says(m, codec, header[k], values[k]) {
      forall n | 0 <= n < |HEADERS| ensures Says(m, codec, HEADERS[n], Field(Layout(header), values, HEADERS[n])) {
        assert HEADERS[n] in header;
      }
    }
    if forall n :: 0 <= n < |HEADERS| ==> Says(m, codec, HEADERS[n], Field(Layout(header), values, HEADERS[n])) {
      forall k | 0 <= k < |header| ensures Says(m, codec, header[k], values[k]) {
        if header[k] !in HEADERS {
          OthersSayNothing(m, codec, header[k], values[k]);
        }
      }
    }
  }

  /** Decoding, exactly: a record holds the measurement that says what each of its columns holds
      under that column's name, if there is one that is valid and not too large. */
  lemma DecodesExactly(header: seq<string>, values: seq<string>, codec: Codec, m: Measurement)
    requires HeaderFits(header)
    ensures Decode(Layout(header), |header|, codec, Fields(values)) == Good(m) <==>
              && |values| == |header|
              && (forall k :: 0 <= k < |header| ==> Says(m, codec, header[k], values[k]))
              && m.Validate() && codec.encode(m).Some? && codec.encode(m).value <= MAX_MEASUREMENT_BYTES
  {
    hide HeaderFits, Layout, Field, Fill, Says, Measurement.Validate;
    if |values| == |header| {
      SaysByName(m, codec, header, values);
      FillSays(Layout(header), values, codec, m);
    }
  }

  /** The measurement filled in is the one that says what the fields hold. */
  lemma FillSays(columns: Columns, values: seq<string>, codec: Codec, m: Measurement)
    ensures (forall n :: 0 <= n < |HEADERS| ==> Says(m, codec, HEADERS[n], Field(columns, values, HEADERS[n]))) <==>
              var time, value := codec.time(Field(columns, values, "timestamp")),
                                 codec.float(Field(columns, values, "value"));
              time.Some? && value.Some? && m == Fill(columns, values, time.value, value.value)
  {
    hide Field;
    NamesAre();
  }

  /** Two records carry the same fields, possibly in another order. */
  ghost predicate SameFields(h: seq<string>, v: seq<string>, h': seq<string>, v': seq<string>) {
    && |v| == |h| && |v'| == |h'|
    && forall i, j :: 0 <= i < |h| && 0 <= j < |h'| && h[i] == h'[j] ==> v[i] == v'[j]
  }

  lemma FieldMoves(h: seq<string>, v: seq<string>, h': seq<string>, v': seq<string>, n: nat)
    requires HeaderFits(h) && HeaderFits(h') && SameFields(h, v, h', v') && n < |HEADERS|
    ensures Field(Layout(h), v, HEADERS[n]) == Field(Layout(h'), v', HEADERS[n])
  {
    LayoutFinds(h);
    LayoutFinds(h');
    assert HEADERS[n] in HEADERS;
  }

  /** Columns are found by name: moving them, or adding others, does not change what a record means. */
  lemma {:induction false} ColumnsMayMove(h: seq<string>, v: seq<string>, h': seq<string>, v': seq<string>,
                                          codec: Codec)
    requires HeaderFits(h) && HeaderFits(h') && SameFields(h, v, h', v')
    ensures Decode(Layout(h), |h|, codec, Fields(v)) == Decode(Layout(h'), |h'|, codec, Fields(v'))
  {
    hide HeaderFits, SameFields, Layout, Field, Measurement.Validate;
    forall n: nat | n < |HEADERS| ensures Field(Layout(h), v, HEADERS[n]) == Field(Layout(h'), v', HEADERS[n]) {
      FieldMoves(h, v, h', v', n);
    }
    NamesAre();
    SameWidths(h, v, h', v');
  }

  lemma SameWidths(h: seq<string>, v: seq<string>, h': seq<string>, v': seq<string>)
    requires SameFields(h, v, h', v')
    ensures |v| == |h| && |v'| == |h'|
  {
  }

  /** The file under its own header. */
  function Readings(header: seq<string>, codec: Codec, records: seq<Record>): (readings: seq<Reading>)
    ensures |readings| == |records|
  {
    seq(|records|, i requires 0 <= i < |records| => Decode(Layout(header), |header|, codec, records[i]))
  }

  // ---------------------------------------------------------------- the replayed stream

  /** The first `upto` records of pass number `replay`. */
  function Pass(readings: seq<Reading>, replay: nat, upto: nat): (history: seq<Read>)
    requires upto <= |readings|
    ensures |history| == upto
  {
    seq(upto, i requires 0 <= i < upto => Read(replay, i + 1, readings[i]))
  }

  /** The whole file `replay` times over, then its first `upto` records. */
  function Stream(readings: seq<Reading>, replay: nat, upto: nat): seq<Read>
    requires upto <= |readings|
  {
    (if replay == 0 then [] else Stream(readings, replay - 1, |readings|)) + Pass(readings, replay, upto)
  }

  predicate Later(a: Read, b: Read) {
    a.replay < b.replay || (a.replay == b.replay && a.row < b.row)
  }

  /** Positions strictly increase along the stream, so no position ever comes back. */
  lemma {:induction false} StreamIncreases(readings: seq<Reading>, replay: nat, upto: nat)
    requires upto <= |readings|
    ensures forall i :: 0 <= i < |Stream(readings, replay, upto)| ==>
              var at := Stream(readings, replay, upto)[i];
              at.replay <= replay && (at.replay == replay ==> at.row <= upto)
    ensures forall i, j :: 0 <= i < j < |Stream(readings, replay, upto)| ==>
              Later(Stream(readings, replay, upto)[i], Stream(readings, replay, upto)[j])
  {
    if replay > 0 {
      StreamIncreases(readings, replay - 1, |readings|);
    }
  }

  lemma StreamNext(readings: seq<Reading>, replay: nat, upto: nat)
    requires upto < |readings|
    ensures Stream(readings, replay, upto + 1)
            == Stream(readings, replay, upto) + [Read(replay, upto + 1, readings[upto])]
  {
  }

  lemma StreamWraps(readings: seq<Reading>, replay: nat)
    ensures Stream(readings, replay + 1, 0) == Stream(readings, replay, |readings|)
  {
  }

  /** The valid rows of a stream, in order. */
  function Goods(history: seq<Read>): seq<Read> {
    if history == [] then []
    else Goods(history[..|history| - 1]) + if history[|history| - 1].reading.Good? then [history[|history| - 1]] else []
  }

  lemma GoodsNext(history: seq<Read>, read: Read)
    ensures Goods(history + [read]) == Goods(history) + if read.reading.Good? then [read] else []
  {
  }

  lemma {:induction false} GoodsConcat(a: seq<Read>, b: seq<Read>)
    ensures Goods(a + b) == Goods(a) + Goods(b)
  {
    if b == [] {
      assert a + b == a;
    } else {
      GoodsConcat(a, b[..|b| - 1]);
      assert (a + b)[..|a + b| - 1] == a + b[..|b| - 1];
    }
  }

  ghost predicate SomeGood(readings: seq<Reading>) {
    exists i :: 0 <= i < |readings| && readings[i].Good?
  }

  lemma {:induction false} PassGoods(readings: seq<Reading>, replay: nat, upto: nat)
    requires upto <= |readings|
    ensures Goods(Pass(readings, replay, upto)) == [] <==> !SomeGood(readings[..upto])
  {
    if upto > 0 {
      PassGoods(readings, replay, upto - 1);
      assert Pass(readings, replay, upto)[..upto - 1] == Pass(readings, replay, upto - 1);
      assert readings[..upto] == readings[..upto - 1] + [readings[upto - 1]];
      if SomeGood(readings[..upto - 1]) {
        var i :| 0 <= i < upto - 1 && readings[..upto - 1][i].Good?;
        assert readings[..upto][i].Good?;
      }
      if readings[upto - 1].Good? {
        assert readings[..upto][upto - 1].Good?;
      }
    }
  }

  lemma {:induction false} StreamLength(readings: seq<Reading>, replay: nat, upto: nat)
    requires upto <= |readings|
    ensures |Stream(readings, replay, upto)| == replay * |readings| + upto
  {
    if replay > 0 {
      StreamLength(readings, replay - 1, |readings|);
    }
  }

  lemma GoodsGrow(readings: seq<Reading>, replay: nat)
    ensures Goods(Stream(readings, replay, |readings|))
         == Goods(Stream(readings, replay, 0)) + Goods(Pass(readings, replay, |readings|))
  {
    hide Goods;
    GoodsConcat(Stream(readings, replay, 0), Pass(readings, replay, |readings|));
    assert Stream(readings, replay, |readings|) == Stream(readings, replay, 0) + Pass(readings, replay, |readings|);
  }

  lemma NoGoods()
    ensures Goods([]) == []
  {
  }

  lemma {:induction false} EveryPassYields(readings: seq<Reading>, replay: nat, upto: nat)
    requires upto <= |readings| && (replay > 0 ==> SomeGood(readings))
    ensures replay <= |Goods(Stream(readings, replay, upto))|
  {
    hide Goods, Pass, SomeGood;
    NoGoods();
    if replay > 0 {
      EveryPassYields(readings, replay - 1, 0);
      PassEnds(readings, replay - 1);
      GoodsGrow(readings, replay - 1);
      GoodsConcat(Stream(readings, replay - 1, |readings|), Pass(readings, replay, upto));
    }
  }

  /** Each pass over a file with a valid row yields one, so the stream is never longer than
      the file times the number of valid rows in it, plus one pass. */
  lemma {:induction false} StreamIsDense(readings: seq<Reading>, replay: nat, upto: nat)
    requires upto <= |readings| && (replay > 0 ==> SomeGood(readings))
    ensures |Stream(readings, replay, upto)| <= (|Goods(Stream(readings, replay, upto))| + 1) * |readings|
  {
    StreamLength(readings, replay, upto);
    EveryPassYields(readings, replay, upto);
    Times(replay, |Goods(Stream(readings, replay, upto))|, |readings|);
  }

  lemma Times(a: nat, b: nat, n: nat)
    requires a <= b
    ensures a * n + n == (a + 1) * n <= (b + 1) * n
  {
  }

  // ---------------------------------------------------------------- the source

  datatype Outcome =
    | Row(measurement: Measurement, replay: nat, row: nat)
    | InvalidRow(badReplay: nat, badRow: nat)
    | ReadFailed
    | NoValidRecords
    | Cancelled

  function Report(read: Read): Outcome {
    match read.reading
    case Good(m) => Row(m, read.replay, read.row)
    case Bad => InvalidRow(read.replay, read.row)
    case Broken => ReadFailed
  }

  class CSV {
    const header: seq<string>
    const records: seq<Record>
    const codec: Codec
    var columns: Columns
    var reader: nat
    var replay: nat
    var row: nat
    var valid: nat
    /** Every record read so far. */
    ghost var log: seq<Read>

    ghost function Contents(): (readings: seq<Reading>)
      ensures |readings| == |records|
    {
      Readings(header, codec, records)
    }

    /** The position of the last record read. */
    ghost function At(): Read
      reads this
    {
      Read(replay, row, Bad)
    }

    ghost predicate Valid()
      reads this
    {
      && columns == Layout(header) && HeaderFits(header)
      && reader == row <= |records|
      && valid == |Goods(Pass(Contents(), replay, row))|
      && log == Stream(Contents(), replay, row)
      && (replay > 0 ==> SomeGood(Contents()))
    }

    constructor (header: seq<string>, records: seq<Record>, codec: Codec)
      ensures this.header == header && this.records == records && this.codec == codec
      ensures reader == replay == row == valid == 0 && log == []
    {
      this.header, this.records, this.codec := header, records, codec;
      columns, reader, replay, row, valid, log := map[], 0, 0, 0, 0, [];
    }

    /** Opens a file; a header with a repeated or a missing name is refused. */
    static method Open(header: seq<string>, records: seq<Record>, codec: Codec) returns (source: CSV?)
      ensures source == null <==> !HeaderFits(header)
      ensures source != null ==>
                && fresh(source) && source.Valid() && source.log == [] && source.replay == source.row == 0
                && source.header == header && source.records == records && source.codec == codec
    {
      var s := new CSV(header, records, codec);
      var ok := s.Reset();
      if !ok {
        return null;
      }
      assert Pass(s.Contents(), 0, 0) == [] && Stream(s.Contents(), 0, 0) == [];
      return s;
    }

    /** Goes back to the first record and reads the header again. */
    method Reset() returns (ok: bool)
      modifies this`columns, this`reader
      ensures ok <==> HeaderFits(header)
      ensures reader == 0
      ensures ok ==> columns == Layout(header)
    {
      reader, columns := 0, map[];
      for i := 0 to |header|
        invariant reader == 0 && columns == Layout(header[..i])
        invariant forall j, k :: 0 <= j < k < i ==> header[j] != header[k]
      {
        LayoutFinds(header[..i]);
        if header[i] in columns {
          HeaderRepeats(header, i);
          return false;
        }
        assert header[..i + 1][..i] == header[..i];
        columns := columns[header[i] := i];
      }
      assert header[..|header|] == header;
      LayoutFinds(header);
      for i := 0 to |HEADERS|
        invariant forall j :: 0 <= j < i ==> HEADERS[j] in columns
      {
        if HEADERS[i] !in columns {
          HeaderMisses(header, i);
          return false;
        }
      }
      ok := true;
    }

    /** The next record's row, or why there is none. `cancelled` and `cancelledAgain` say whether
        the caller gave up before the first and before a second reading. The loop runs at most
        twice: a pass without a valid row ends in an error instead of another pass. */
    method Next(cancelled: bool, cancelledAgain: bool) returns (outcome: Outcome, ghost turns: nat)
      requires Valid()
      modifies this
      ensures Valid() && 1 <= turns <= 2
      ensures outcome.NoValidRecords? <==> !cancelled && old(row) == |records| && !SomeGood(Contents())
      ensures outcome.Cancelled? <==> cancelled || (cancelledAgain && old(row) == |records| && SomeGood(Contents()))
      ensures outcome.NoValidRecords? || outcome.Cancelled? ==> log == old(log)
      ensures !outcome.NoValidRecords? && !outcome.Cancelled? ==>
                && 0 < row && log == old(log) + [Read(replay, row, Contents()[row - 1])]
                && outcome == Report(Read(replay, row, Contents()[row - 1]))
                && Later(old(At()), At())
      ensures old(row) < |records| ==> replay == old(replay)
      ensures At() == old(At()) || Later(old(At()), At())
    {
      hide Stream, Pass, Goods, Decode, HeaderFits;
      turns := 0;
      var stop := cancelled;
      while true
        invariant Valid() && log == old(log)
        invariant turns == 0 ==> stop == cancelled && replay == old(replay) && row == old(row)
        invariant turns == 1 ==>
                    && !cancelled && stop == cancelledAgain && SomeGood(Contents())
                    && old(row) == |records| && replay == old(replay) + 1 && row == 0
        invariant turns <= 1 && (turns == 1 ==> |records| > 0)
        decreases 1 - turns
      {
        turns := turns + 1;
        if stop {
          return Cancelled, turns;
        }
        if reader == |records| {
          PassEnds(Contents(), replay);
          if valid == 0 {
            return NoValidRecords, turns;
          }
          StreamWraps(Contents(), replay);
          replay, row, valid := replay + 1, 0, 0;
          var ok := Reset();
          PassStarts(Contents(), replay);
          stop := cancelledAgain;
          continue;
        }
        ghost var readings := Contents();
        StreamNext(readings, replay, row);
        PassNext(readings, replay, row);
        var record := records[reader];
        reader, row := reader + 1, row + 1;
        var read := Read(replay, row, Decode(columns, |header|, codec, record));
        assert read.reading == readings[row - 1];
        log := log + [read];
        if read.reading.Good? {
          valid := valid + 1;
        }
        return Report(read), turns;
      }
    }
  }

  lemma PassEnds(readings: seq<Reading>, replay: nat)
    ensures |Goods(Pass(readings, replay, |readings|))| == 0 <==> !SomeGood(readings)
    ensures SomeGood(readings) ==> readings != []
  {
    PassGoods(readings, replay, |readings|);
    assert readings[..|readings|] == readings;
  }

  lemma PassStarts(readings: seq<Reading>, replay: nat)
    ensures Goods(Pass(readings, replay, 0)) == []
  {
  }

  lemma PassNext(readings: seq<Reading>, replay: nat, upto: nat)
    requires upto < |readings|
    ensures |Goods(Pass(readings, replay, upto + 1))|
         == |Goods(Pass(readings, replay, upto))| + if readings[upto].Good? then 1 else 0
  {
    var read := Read(replay, upto + 1, readings[upto]);
    assert Pass(readings, replay, upto + 1) == Pass(readings, replay, upto) + [read];
    GoodsNext(Pass(readings, replay, upto), read);
  }
}
