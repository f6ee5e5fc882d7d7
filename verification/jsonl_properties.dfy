/**
 * Properties of the JSON Lines helpers: what a save leaves in the file,
 * how a read filters and orders lines, and the save/read round trip.
 */
module JsonlProperties {
  import opened Wrappers
  import opened Json
  import opened JsonFileProcessing
  import PyStr
  import Sequences

  /** Every element is a dict that `json.dumps` can encode. */
  predicate AllWritable(items: seq<Value>, dumps: Dumps)
  {
    forall i :: 0 <= i < |items| ==> Writable(items[i], dumps)
  }

  /** A line the reader turns into a record: not blank, decodes, and does
      not decode to `null`. */
  predicate Emits(line: string, loads: Loads)
  {
    && !PyStr.IsBlank(line)
    && loads(PyStr.Strip(line)).Some?
    && loads(PyStr.Strip(line)).value != Null
  }

  // ---------------------------------------------------------------------
  // Writing

  /** `lines` are the record lines of the first `|lines|` elements of
      `items`: one per element, in order, each the element's encoding
      followed by '\n'. */
  predicate RecordLinesOf(lines: seq<string>, items: seq<Value>, dumps: Dumps)
  {
    && |lines| <= |items|
    && forall i :: 0 <= i < |lines| ==> Writable(items[i], dumps) && lines[i] == RecordLine(items[i], dumps)
  }

  /** `lines` are the record lines of all of `items`. */
  predicate IsRecordLines(lines: seq<string>, items: seq<Value>, dumps: Dumps)
  {
    |lines| == |items| && RecordLinesOf(lines, items, dumps)
  }

  /** `file` begins with `start`. */
  predicate Extends(file: string, start: string)
  {
    |start| <= |file| && file[..|start|] == start
  }

  /** The text a save starts from: nothing in 'w' mode, the old file in
      'a' mode. */
  function Start(mode: string, file: string): string
  {
    if mode == "w" then "" else file
  }

  /** Record lines extend one element at a time. */
  lemma RecordLinesCons(line: string, lines: seq<string>, items: seq<Value>, dumps: Dumps)
    requires items != [] && RecordLinesOf(lines, items[1..], dumps)
    requires Writable(items[0], dumps) && line == RecordLine(items[0], dumps)
    ensures RecordLinesOf([line] + lines, items, dumps)
  {
    var ls := [line] + lines;
    forall i | 0 <= i < |ls| ensures Writable(items[i], dumps) && ls[i] == RecordLine(items[i], dumps) {
      if i > 0 {
        assert items[i] == items[1..][i - 1] && ls[i] == lines[i - 1];
      }
    }
  }

  /** The write loop leaves exactly one line per written element, in list
      order, each the element's encoding followed by '\n'. */
  lemma {:induction false} WrittenLines(items: seq<Value>, dumps: Dumps)
    requires EncodesLines(dumps)
    ensures |PyStr.Lines(WriteRecords(items, dumps).text)| == WriteRecords(items, dumps).count
    ensures RecordLinesOf(PyStr.Lines(WriteRecords(items, dumps).text), items, dumps)
  {
    if items != [] && Writable(items[0], dumps) {
      var s := dumps(items[0]).value;
      assert LineSafe(s);
      var rest := WriteRecords(items[1..], dumps);
      PyStr.SingleLine(s);
      PyStr.LinesAppend(s + "\n", rest.text);
      WrittenLines(items[1..], dumps);
      RecordLinesCons(s + "\n", PyStr.Lines(rest.text), items, dumps);
    }
  }

  /** The loop stops at exactly the first element it cannot write. */
  lemma WriteStopsAtFirstBad(items: seq<Value>, k: nat, dumps: Dumps)
    requires k < |items| && AllWritable(items[..k], dumps) && !Writable(items[k], dumps)
    ensures WriteRecords(items, dumps).count == k
    ensures !WriteRecords(items, dumps).complete
  {
    forall i | 0 <= i < k ensures Writable(items[i], dumps) {
      assert items[..k][i] == items[i];
    }
  }

  /** When every element is a writable dict, `save_to_jsonl` returns the
      list's length and, in either mode and whatever the file held, the
      text after the kept prefix is the elements' record lines in order. */
  lemma SaveWritesEveryRecord(items: seq<Value>, mode: string, file: string, dumps: Dumps)
    requires EncodesLines(dumps) && AllWritable(items, dumps)
    requires mode == "w" || mode == "a"
    ensures SaveToJsonl(Array(items), mode, file, true, dumps).result == Ok(|items|)
    ensures Extends(SaveToJsonl(Array(items), mode, file, true, dumps).file, Start(mode, file))
    ensures IsRecordLines(PyStr.Lines(SaveToJsonl(Array(items), mode, file, true, dumps).file[|Start(mode, file)|..]), items, dumps)
  {
    var s := SaveToJsonl(Array(items), mode, file, true, dumps);
    var start := Start(mode, file);
    var w := WriteRecords(items, dumps);
    assert s.file == start + w.text;
    assert s.file[|start|..] == w.text;
    WrittenLines(items, dumps);
  }

  /** The first element that is not a writable dict ends the save: 0 is
      returned instead of an exception, and the record lines of the
      elements before it stay in the file. */
  lemma SavePartialOnBadElement(items: seq<Value>, k: nat, mode: string, file: string, dumps: Dumps)
    requires EncodesLines(dumps)
    requires k < |items| && AllWritable(items[..k], dumps) && !Writable(items[k], dumps)
    requires mode == "w" || mode == "a"
    ensures SaveToJsonl(Array(items), mode, file, true, dumps).result == Ok(0)
    ensures Extends(SaveToJsonl(Array(items), mode, file, true, dumps).file, Start(mode, file))
    ensures |PyStr.Lines(SaveToJsonl(Array(items), mode, file, true, dumps).file[|Start(mode, file)|..])| == k
    ensures RecordLinesOf(PyStr.Lines(SaveToJsonl(Array(items), mode, file, true, dumps).file[|Start(mode, file)|..]), items, dumps)
  {
    var s := SaveToJsonl(Array(items), mode, file, true, dumps);
    var start := Start(mode, file);
    var w := WriteRecords(items, dumps);
    WriteStopsAtFirstBad(items, k, dumps);
    assert s.file == start + w.text;
    assert s.file[|start|..] == w.text;
    WrittenLines(items, dumps);
  }

  // ---------------------------------------------------------------------
  // Reading

  /** Continuing a read that has consumed some lines with the read of the
      lines that follow them. */
  function Then(first: Stream, next: Stream): Stream
  {
    if first.stop.Some? then first else Stream(first.records + next.records, next.stop)
  }

  /** Continuing is associative: it does not matter how consecutive chunks
      are grouped. */
  lemma ThenAssociative(x: Stream, y: Stream, z: Stream)
    ensures Then(x, Then(y, z)) == Then(Then(x, y), z)
  {
    if x.stop.None? && y.stop.None? {
      assert x.records + (y.records + z.records) == (x.records + y.records) + z.records;
    }
  }

  /** One step of the loop: the first result, then the rest. */
  lemma CollectCons(r: Result<Value, ReadError>, rest: seq<Result<Value, ReadError>>)
    ensures Collect([r] + rest) == Then(Collect([r]), Collect(rest))
  {
    var rs := [r] + rest;
    assert rs[0] == r && rs[1..] == rest;
    assert [r][1..] == [];
    match r
    case Err(_) =>
    case Ok(v) =>
      var head: seq<Value> := if v == Null then [] else [v];
      assert Collect([r]) == Stream(head + [], None);
      assert head + [] == head;
  }

  /** Collecting two chunks of results is collecting the first, then —
      unless it raised — the second. */
  lemma {:induction false} CollectAppend(x: seq<Result<Value, ReadError>>, y: seq<Result<Value, ReadError>>)
    ensures Collect(x + y) == Then(Collect(x), Collect(y))
  {
    if x == [] {
      assert x + y == y;
      assert [] + Collect(y).records == Collect(y).records;
    } else {
      var first := Collect([x[0]]);
      var rest := x[1..];
      assert x == [x[0]] + rest;
      assert x + y == [x[0]] + (rest + y);
      calc {
        Collect(x + y);
        { CollectCons(x[0], rest + y); }
        Then(first, Collect(rest + y));
        { CollectAppend(rest, y); }
        Then(first, Then(Collect(rest), Collect(y)));
        { ThenAssociative(first, Collect(rest), Collect(y)); }
        Then(Then(first, Collect(rest)), Collect(y));
        { CollectCons(x[0], rest); }
        Then(Collect(x), Collect(y));
      }
    }
  }

  /** `process_line` sees each line on its own. */
  lemma {:induction false} ResultsAppend(a: seq<string>, b: seq<string>, errorHandling: string, loads: Loads)
    ensures Results(a + b, errorHandling, loads) == Results(a, errorHandling, loads) + Results(b, errorHandling, loads)
  {
    if a == [] {
      assert a + b == b;
    } else {
      assert (a + b)[0] == a[0] && (a + b)[1..] == a[1..] + b;
      ResultsAppend(a[1..], b, errorHandling, loads);
      Sequences.ConsAppend(ProcessLine(a[0], errorHandling, loads), Results(a[1..], errorHandling, loads), Results(b, errorHandling, loads));
    }
  }

  /** Reading lines in two chunks is reading the first chunk, then — unless
      it raised — the second, with the records concatenated. */
  lemma ReadLinesAppend(a: seq<string>, b: seq<string>, errorHandling: string, loads: Loads)
    ensures ReadLines(a + b, errorHandling, loads) ==
      Then(ReadLines(a, errorHandling, loads), ReadLines(b, errorHandling, loads))
  {
    ResultsAppend(a, b, errorHandling, loads);
    CollectAppend(Results(a, errorHandling, loads), Results(b, errorHandling, loads));
  }

  /** What reading a single line gives. */
  lemma ReadOneLine(line: string, errorHandling: string, loads: Loads)
    ensures ReadLines([line], errorHandling, loads) ==
      match ProcessLine(line, errorHandling, loads)
      case Err(e) => Stream([], Some(e))
      case Ok(v) => Stream(if v == Null then [] else [v], None)
  {
    var rs := Results([line], errorHandling, loads);
    assert rs == [ProcessLine(line, errorHandling, loads)];
    assert rs[1..] == [];
  }

  /** A line `process_line` maps to `None` can be deleted from the file
      without changing what is read. */
  lemma DropLine(pre: seq<string>, line: string, post: seq<string>, errorHandling: string, loads: Loads)
    requires ProcessLine(line, errorHandling, loads) == Ok(Null)
    ensures ReadLines(pre + [line] + post, errorHandling, loads) == ReadLines(pre + post, errorHandling, loads)
  {
    ReadOneLine(line, errorHandling, loads);
    ReadLinesAppend(pre + [line], post, errorHandling, loads);
    ReadLinesAppend(pre, [line], errorHandling, loads);
    ReadLinesAppend(pre, post, errorHandling, loads);
    var sp := ReadLines(pre, errorHandling, loads);
    assert sp.records + [] == sp.records;
  }

  /** Blank and whitespace-only lines never matter, under every policy. */
  lemma BlankLineIgnored(pre: seq<string>, line: string, post: seq<string>, errorHandling: string, loads: Loads)
    requires PyStr.IsBlank(line)
    ensures ReadLines(pre + [line] + post, errorHandling, loads) == ReadLines(pre + post, errorHandling, loads)
  {
    DropLine(pre, line, post, errorHandling, loads);
  }

  /** A line holding JSON `null` decodes to `None`, which the reader filters
      out like a skipped line. */
  lemma NullLineDropped(pre: seq<string>, line: string, post: seq<string>, errorHandling: string, loads: Loads)
    requires loads(PyStr.Strip(line)) == Some(Null)
    ensures ReadLines(pre + [line] + post, errorHandling, loads) == ReadLines(pre + post, errorHandling, loads)
  {
    DropLine(pre, line, post, errorHandling, loads);
  }

  /** Under "skip", "replace" or any other policy but "raise", a malformed
      line is dropped: "replace" leaves no placeholder. */
  lemma MalformedLineDropped(pre: seq<string>, line: string, post: seq<string>, errorHandling: string, loads: Loads)
    requires errorHandling != "raise"
    requires !PyStr.IsBlank(line) && loads(PyStr.Strip(line)).None?
    ensures ReadLines(pre + [line] + post, errorHandling, loads) == ReadLines(pre + post, errorHandling, loads)
  {
    DropLine(pre, line, post, errorHandling, loads);
  }

  /** Under "raise", a malformed line ends the read with an error naming
      that raw line, unless an earlier line already did; nothing after it
      is read. */
  lemma MalformedLineRaises(pre: seq<string>, line: string, post: seq<string>, loads: Loads)
    requires !PyStr.IsBlank(line) && loads(PyStr.Strip(line)).None?
    ensures ReadLines(pre + [line] + post, "raise", loads) ==
      Then(ReadLines(pre, "raise", loads), Stream([], Some(Malformed(line))))
  {
    ReadOneLine(line, "raise", loads);
    ReadLinesAppend(pre + [line], post, "raise", loads);
    ReadLinesAppend(pre, [line], "raise", loads);
    var sp := ReadLines(pre, "raise", loads);
    assert sp.records + [] == sp.records;
  }

  /** All policies other than "raise" read every file identically. */
  lemma NonRaisingPoliciesAgree(lines: seq<string>, policy1: string, policy2: string, loads: Loads)
    requires policy1 != "raise" && policy2 != "raise"
    ensures ReadLines(lines, policy1, loads) == ReadLines(lines, policy2, loads)
  {
    ResultsAgree(lines, policy1, policy2, loads);
  }

  /** `process_line` itself cannot tell the non-raising policies apart. */
  lemma {:induction false} ResultsAgree(lines: seq<string>, policy1: string, policy2: string, loads: Loads)
    requires policy1 != "raise" && policy2 != "raise"
    ensures Results(lines, policy1, loads) == Results(lines, policy2, loads)
  {
    if lines != [] {
      ResultsAgree(lines[1..], policy1, policy2, loads);
      assert ProcessLine(lines[0], policy1, loads) == ProcessLine(lines[0], policy2, loads);
    }
  }

  /** Every index moved one line down. */
  function Shift(xs: seq<nat>): (r: seq<nat>)
    ensures |r| == |xs|
    ensures forall i :: 0 <= i < |xs| ==> r[i] == xs[i] + 1
  {
    seq(|xs|, i requires 0 <= i < |xs| => xs[i] + 1)
  }

  /** How many results the loop gets through: all of them, or up to (not
      including) the first that raised. */
  function Consumed(results: seq<Result<Value, ReadError>>): (n: nat)
    ensures n <= |results|
    ensures forall i :: 0 <= i < n ==> results[i].Ok?
    ensures n < |results| ==> results[n].Err?
  {
    if results == [] then 0
    else if results[0].Err? then 0
    else 1 + Consumed(results[1..])
  }

  /** The positions of the results the loop keeps, in order. */
  function Kept(results: seq<Result<Value, ReadError>>): seq<nat>
  {
    if results == [] || results[0].Err? then []
    else (if results[0].value == Null then [] else [0]) + Shift(Kept(results[1..]))
  }

  /** The loop runs to the end unless a result raised, and then it is the
      first result it did not get through that raised. */
  lemma {:induction false} ConsumedStops(results: seq<Result<Value, ReadError>>)
    ensures Collect(results).stop.None? <==> Consumed(results) == |results|
    ensures Consumed(results) < |results| ==>
      Collect(results).stop == Some(results[Consumed(results)].error)
  {
    if results != [] && results[0].Ok? {
      var tail := results[1..];
      ConsumedStops(tail);
    }
  }

  /** Strictly increasing positions. */
  predicate Increasing(xs: seq<nat>)
  {
    forall i, j :: 0 <= i < j < |xs| ==> xs[i] < xs[j]
  }

  /** Positions all below `bound`. */
  predicate Below(xs: seq<nat>, bound: nat)
  {
    forall i :: 0 <= i < |xs| ==> xs[i] < bound
  }

  /** Putting position 0 in front of positive increasing positions keeps
      them increasing. */
  lemma ConsZero(sh: seq<nat>, bound: nat)
    requires Increasing(sh) && Below(sh, bound) && 0 < bound
    requires forall i :: 0 <= i < |sh| ==> sh[i] > 0
    ensures Increasing([0] + sh) && Below([0] + sh, bound)
  {
    var idx := [0] + sh;
    forall i, j | 0 <= i < j < |idx| ensures idx[i] < idx[j] {
      assert idx[j] == sh[j - 1];
      if i > 0 {
        assert idx[i] == sh[i - 1];
      }
    }
  }

  /** Prepending position 0 (or nothing) to shifted increasing positions
      keeps them increasing and within one more than the old bound. */
  lemma ShiftedIncreasing(rest: seq<nat>, bound: nat, keepFirst: bool)
    requires Increasing(rest) && Below(rest, bound)
    ensures Increasing((if keepFirst then [0] else []) + Shift(rest))
    ensures Below((if keepFirst then [0] else []) + Shift(rest), bound + 1)
  {
    var sh := Shift(rest);
    assert Increasing(sh) && Below(sh, bound + 1);
    if keepFirst {
      ConsZero(sh, bound + 1);
    } else {
      assert [] + sh == sh;
    }
  }

  /** Records keep the order of their results: the kept positions increase
      and all lie among the results the loop got through. */
  lemma {:induction false} KeptIncreasing(results: seq<Result<Value, ReadError>>)
    ensures Increasing(Kept(results))
    ensures Below(Kept(results), Consumed(results))
  {
    if results != [] && results[0].Ok? {
      var tail := results[1..];
      KeptIncreasing(tail);
      ShiftedIncreasing(Kept(tail), Consumed(tail), results[0].value != Null);
    }
  }

  /** The kept positions after the first result, in terms of the rest. */
  lemma KeptStep(results: seq<Result<Value, ReadError>>, i: nat)
    requires results != [] && results[0].Ok?
    requires i < |Kept(results)|
    ensures var v := results[0].value;
      var k := if v == Null then i else i - 1;
      && (v != Null && i == 0 ==> Kept(results)[i] == 0)
      && (v == Null || i > 0 ==>
            && 0 <= k < |Kept(results[1..])|
            && Kept(results)[i] == Kept(results[1..])[k] + 1)
  {
  }

  /** Record i is the value of the result at position `Kept[i]`, a result
      that is not `None`; there is one kept position per record. */
  predicate RecordsAtKept(results: seq<Result<Value, ReadError>>)
  {
    var idx := Kept(results);
    var s := Collect(results);
    && |idx| == |s.records|
    && forall i :: 0 <= i < |idx| ==>
         idx[i] < |results| && results[idx[i]] == Ok(s.records[i])
  }

  /** Every record sits at its kept position. */
  lemma {:induction false} KeptRecords(results: seq<Result<Value, ReadError>>)
    ensures RecordsAtKept(results)
  {
    if results != [] && results[0].Ok? {
      KeptRecords(results[1..]);
      KeptRecordsStep(results);
    }
  }

  /** The step of `KeptRecords`: the first result, then the rest. */
  lemma KeptRecordsStep(results: seq<Result<Value, ReadError>>)
    requires results != [] && results[0].Ok?
    requires RecordsAtKept(results[1..])
    ensures RecordsAtKept(results)
  {
    var tail := results[1..];
    var idx := Kept(results);
    var s := Collect(results);
    var v := results[0].value;
    var head: seq<Value> := if v == Null then [] else [v];
    assert s.records == head + Collect(tail).records;
    forall i | 0 <= i < |idx|
      ensures idx[i] < |results| && results[idx[i]] == Ok(s.records[i])
    {
      KeptStep(results, i);
    }
  }

  /** No record is lost: every result the loop got through that is not
      `None` is kept. */
  lemma {:induction false} KeptComplete(results: seq<Result<Value, ReadError>>)
    ensures forall j ::
      0 <= j < Consumed(results) && results[j] != Ok(Null) ==> j in Kept(results)
  {
    if results != [] && results[0].Ok? {
      var tail := results[1..];
      KeptComplete(tail);
      var v := results[0].value;
      var idx := Kept(results);
      var rest := Kept(tail);
      var shifted := Shift(rest);
      assert idx == (if v == Null then [] else [0]) + shifted;
      forall j | 0 <= j < Consumed(results) && results[j] != Ok(Null) ensures j in idx {
        if j > 0 {
          assert results[j] == tail[j - 1];
          var k :| 0 <= k < |rest| && rest[k] == j - 1;
          assert shifted[k] == j;
        }
      }
    }
  }

  /** The read got through the first `c` lines: all of them and no
      exception, or else line `c` is a malformed line that raised. */
  predicate StopsAtFirstMalformed(lines: seq<string>, s: Stream, c: nat, loads: Loads)
  {
    && c <= |lines|
    && (s.stop.None? <==> c == |lines|)
    && (c < |lines| ==>
          && s.stop == Some(Malformed(lines[c]))
          && !PyStr.IsBlank(lines[c])
          && loads(PyStr.Strip(lines[c])).None?)
  }

  /** Record i is the decoding of line `idx[i]`, one of the first `c`
      lines, and a line that emits a record; the positions increase. */
  predicate DecodedFrom(lines: seq<string>, idx: seq<nat>, records: seq<Value>, c: nat, loads: Loads)
  {
    && c <= |lines|
    && |idx| == |records|
    && Increasing(idx)
    && forall i :: 0 <= i < |idx| ==>
         && idx[i] < c
         && Emits(lines[idx[i]], loads)
         && loads(PyStr.Strip(lines[idx[i]])) == Some(records[i])
  }

  /** Every line among the first `c` that emits a record is one of `idx`. */
  predicate NoneLost(lines: seq<string>, idx: seq<nat>, c: nat, loads: Loads)
  {
    && c <= |lines|
    && forall j :: 0 <= j < c && Emits(lines[j], loads) ==> j in idx
  }

  /** The read stops exactly at the first malformed line under "raise". */
  lemma ProvenanceStop(lines: seq<string>, errorHandling: string, loads: Loads)
    ensures var rs := Results(lines, errorHandling, loads);
      StopsAtFirstMalformed(lines, ReadLines(lines, errorHandling, loads), Consumed(rs), loads)
  {
    var rs := Results(lines, errorHandling, loads);
    var c := Consumed(rs);
    ConsumedStops(rs);
    if c < |lines| {
      ResultsPointwise(lines, errorHandling, loads);
      assert rs[c] == ProcessLine(lines[c], errorHandling, loads);
    }
  }

  /** Each record is the decoding of a consumed line, in file order. */
  lemma ProvenanceRecords(lines: seq<string>, errorHandling: string, loads: Loads)
    ensures var rs := Results(lines, errorHandling, loads);
      DecodedFrom(lines, Kept(rs), ReadLines(lines, errorHandling, loads).records, Consumed(rs), loads)
  {
    var rs := Results(lines, errorHandling, loads);
    ResultsPointwise(lines, errorHandling, loads);
    KeptIncreasing(rs);
    KeptRecords(rs);
    var s := Collect(rs);
    var idx := Kept(rs);
    forall i | 0 <= i < |idx|
      ensures idx[i] < Consumed(rs)
      ensures Emits(lines[idx[i]], loads) && loads(PyStr.Strip(lines[idx[i]])) == Some(s.records[i])
    {
      assert idx[i] < Consumed(rs);
      assert rs[idx[i]] == ProcessLine(lines[idx[i]], errorHandling, loads);
    }
  }

  /** Every consumed line that emits a record is kept. */
  lemma ProvenanceComplete(lines: seq<string>, errorHandling: string, loads: Loads)
    ensures var rs := Results(lines, errorHandling, loads);
      NoneLost(lines, Kept(rs), Consumed(rs), loads)
  {
    var rs := Results(lines, errorHandling, loads);
    ResultsPointwise(lines, errorHandling, loads);
    KeptComplete(rs);
    forall j | 0 <= j < Consumed(rs) && Emits(lines[j], loads) ensures j in Kept(rs) {
      assert rs[j] == ProcessLine(lines[j], errorHandling, loads);
    }
  }

  /** Where each record of a read comes from, in terms of the file's lines:
      the read gets through `Consumed` lines (all of them unless a malformed
      line raised right after); the records are the decodings of exactly
      those consumed lines that are not blank and do not hold `null`, one
      each, in file order. */
  lemma ReadProvenance(lines: seq<string>, errorHandling: string, loads: Loads)
    ensures var rs := Results(lines, errorHandling, loads);
      var s := ReadLines(lines, errorHandling, loads);
      && StopsAtFirstMalformed(lines, s, Consumed(rs), loads)
      && DecodedFrom(lines, Kept(rs), s.records, Consumed(rs), loads)
      && NoneLost(lines, Kept(rs), Consumed(rs), loads)
  {
    ProvenanceStop(lines, errorHandling, loads);
    ProvenanceRecords(lines, errorHandling, loads);
    ProvenanceComplete(lines, errorHandling, loads);
  }

  /** Collecting results that are all records gives exactly those records. */
  lemma {:induction false} CollectRecords(results: seq<Result<Value, ReadError>>, items: seq<Value>)
    requires |results| == |items|
    requires forall i :: 0 <= i < |items| ==> results[i] == Ok(items[i]) && items[i] != Null
    ensures Collect(results) == Stream(items, None)
  {
    if results != [] {
      CollectRecords(results[1..], items[1..]);
      assert [items[0]] + items[1..] == items;
    }
  }

  /** Reading a file of record lines gives back the records. */
  lemma ReadRecordLines(lines: seq<string>, items: seq<Value>, errorHandling: string, dumps: Dumps, loads: Loads)
    requires Codec(dumps, loads) && IsRecordLines(lines, items, dumps)
    ensures ReadLines(lines, errorHandling, loads) == Stream(items, None)
  {
    var rs := Results(lines, errorHandling, loads);
    ResultsPointwise(lines, errorHandling, loads);
    forall i | 0 <= i < |items| ensures rs[i] == Ok(items[i]) && items[i] != Null {
      var s := dumps(items[i]).value;
      assert LineSafe(s);
      PyStr.StripTerminatedToken(s);
    }
    CollectRecords(rs, items);
  }

  // ---------------------------------------------------------------------
  // Save, then read

  /** Round trip: saving a list of dicts in 'w' mode and reading the file
      back, as a list or as a generator, gives the same list, whatever the
      file held before and under any error policy. */
  lemma RoundTrip(items: seq<Value>, file: string, errorHandling: string, dumps: Dumps, loads: Loads)
    requires Codec(dumps, loads) && AllWritable(items, dumps)
    ensures var s := SaveToJsonl(Array(items), "w", file, true, dumps);
      && s.result == Ok(|items|)
      && ReadJsonl(Some(s.file), "list", errorHandling, loads) == Ok(List(items))
      && ReadJsonl(Some(s.file), "generator", errorHandling, loads) == Ok(Generator(items, None))
  {
    var s := SaveToJsonl(Array(items), "w", file, true, dumps);
    SaveWritesEveryRecord(items, "w", file, dumps);
    assert s.file[0..] == s.file;
    ReadRecordLines(PyStr.Lines(s.file), items, errorHandling, dumps, loads);
    ReadsAs(s.file, items, errorHandling, loads);
  }

  /** A file whose lines read cleanly as `items` gives `items` under both
      return types. */
  lemma ReadsAs(file: string, items: seq<Value>, errorHandling: string, loads: Loads)
    requires ReadLines(PyStr.Lines(file), errorHandling, loads) == Stream(items, None)
    ensures ReadJsonl(Some(file), "list", errorHandling, loads) == Ok(List(items))
    ensures ReadJsonl(Some(file), "generator", errorHandling, loads) == Ok(Generator(items, None))
  {
  }

  /** A list-mode read of a file that reads without raising returns its
      records. */
  lemma ListRead(file: string, errorHandling: string, loads: Loads)
    requires ReadLines(PyStr.Lines(file), errorHandling, loads).stop.None?
    ensures ReadJsonl(Some(file), "list", errorHandling, loads)
      == Ok(List(ReadLines(PyStr.Lines(file), errorHandling, loads).records))
  {
  }

  /** Record lines after a '\n'-terminated text that reads cleanly are
      read after that text's records. */
  lemma ReadAfterPrior(prior: string, tail: string, items: seq<Value>, errorHandling: string, dumps: Dumps, loads: Loads)
    requires Codec(dumps, loads) && IsRecordLines(PyStr.Lines(tail), items, dumps)
    requires prior == [] || prior[|prior| - 1] == '\n'
    requires ReadLines(PyStr.Lines(prior), errorHandling, loads).stop.None?
    ensures ReadLines(PyStr.Lines(prior + tail), errorHandling, loads)
      == Stream(ReadLines(PyStr.Lines(prior), errorHandling, loads).records + items, None)
  {
    PyStr.LinesAppend(prior, tail);
    ReadRecordLines(PyStr.Lines(tail), items, errorHandling, dumps, loads);
    ReadLinesAppend(PyStr.Lines(prior), PyStr.Lines(tail), errorHandling, loads);
  }

  /** Appending to a file that ends in a line break (or is empty) and reads
      cleanly adds the new records after the ones already there. */
  lemma AppendExtendsRead(prior: string, items: seq<Value>, errorHandling: string, dumps: Dumps, loads: Loads)
    requires Codec(dumps, loads) && AllWritable(items, dumps)
    requires prior == [] || prior[|prior| - 1] == '\n'
    requires ReadLines(PyStr.Lines(prior), errorHandling, loads).stop.None?
    ensures var s := SaveToJsonl(Array(items), "a", prior, true, dumps);
      && s.result == Ok(|items|)
      && ReadJsonl(Some(s.file), "list", errorHandling, loads)
         == Ok(List(ReadLines(PyStr.Lines(prior), errorHandling, loads).records + items))
  {
    var s := SaveToJsonl(Array(items), "a", prior, true, dumps);
    SaveWritesEveryRecord(items, "a", prior, dumps);
    var tail := s.file[|prior|..];
    assert s.file == prior + tail;
    ReadAfterPrior(prior, tail, items, errorHandling, dumps, loads);
    ListRead(s.file, errorHandling, loads);
  }

  /** Writing A in 'w' mode and then B in 'a' mode reads back as A followed
      by B. */
  lemma WriteThenAppend(a: seq<Value>, b: seq<Value>, file: string, errorHandling: string, dumps: Dumps, loads: Loads)
    requires Codec(dumps, loads) && AllWritable(a, dumps) && AllWritable(b, dumps)
    ensures var s1 := SaveToJsonl(Array(a), "w", file, true, dumps);
      var s2 := SaveToJsonl(Array(b), "a", s1.file, true, dumps);
      && s2.result == Ok(|b|)
      && ReadJsonl(Some(s2.file), "list", errorHandling, loads) == Ok(List(a + b))
  {
    var s1 := SaveToJsonl(Array(a), "w", file, true, dumps);
    RoundTrip(a, file, errorHandling, dumps, loads);
    AppendExtendsRead(s1.file, b, errorHandling, dumps, loads);
  }

  /** Both return types describe the same read: the list is what the
      generator yields, and the list call raises exactly the exception the
      generator's iteration ends with. */
  lemma ListMatchesGenerator(file: Option<string>, errorHandling: string, loads: Loads)
    ensures var g := ReadJsonl(file, "generator", errorHandling, loads).value;
      ReadJsonl(file, "list", errorHandling, loads) ==
        if g.stop.Some? then Err(g.stop.value) else Ok(List(g.produced))
  {
  }
}
