/**
 * `save_to_jsonl` and `read_jsonl`: writing a list of dicts as JSON Lines
 * and reading such a file back.
 *
 * A file is modelled by its text. `json.dumps` and `json.loads` are the
 * caller-supplied `dumps`/`loads` of module Json. json_file_processing.py calls
 * `json.dumps`/`json.loads` without importing `json`; the model follows the
 * evident intent and treats the module as available.
 */
module JsonFileProcessing {
  import opened Wrappers
  import opened Json
  import PyStr

  /** Exceptions `save_to_jsonl` lets escape: the `TypeError` for a
      non-list argument and the `ValueError` for a bad mode. */
  datatype SaveError = NotAList | InvalidMode

  /** What a call of `save_to_jsonl` leaves behind: its returned count (or
      the exception it raised) and the file's text afterwards. */
  datatype Saved = Saved(result: Result<nat, SaveError>, file: string)

  /** An element the loop can write: a dict that `json.dumps` encodes. */
  predicate Writable(v: Value, dumps: Dumps)
  {
    v.Object? && dumps(v).Some?
  }

  /** The line written for a writable element: its encoding plus '\n'. */
  function RecordLine(v: Value, dumps: Dumps): string
    requires Writable(v, dumps)
  {
    dumps(v).value + "\n"
  }

  /** Progress of the streamed write loop: how many elements were written,
      whether it ran to the end of the list, and the text it wrote. */
  datatype Written = Written(count: nat, complete: bool, text: string)

  /** The `for item in data_list` loop: each dict is encoded and written as
      one line as soon as it is reached; the first element that is not a
      dict (or that `json.dumps` cannot encode) raises inside the loop and
      ends it, leaving the lines before it written. */
  function WriteRecords(items: seq<Value>, dumps: Dumps): (w: Written)
    ensures w.count <= |items|
    ensures forall i :: 0 <= i < w.count ==> Writable(items[i], dumps)
    ensures w.complete <==> w.count == |items|
    ensures !w.complete ==> !Writable(items[w.count], dumps)
    ensures w.text == [] <==> w.count == 0
    ensures w.text == [] || w.text[|w.text| - 1] == '\n'
  {
    if items == [] then Written(0, true, "")
    else if !Writable(items[0], dumps) then Written(0, false, "")
    else
      var rest := WriteRecords(items[1..], dumps);
      Written(rest.count + 1, rest.complete, RecordLine(items[0], dumps) + rest.text)
  }

  /** `save_to_jsonl(data, path, mode)` on a file whose text is `file`.
      `opens` says whether `open(path, mode)` succeeds; encoding and
      `ensure_ascii` are folded into `dumps`. */
  function SaveToJsonl(data: Value, mode: string, file: string, opens: bool, dumps: Dumps): (s: Saved)
    // The list check comes first, then the mode check, both before the file is touched.
    ensures !data.Array? ==> s == Saved(Err(NotAList), file)
    ensures data.Array? && mode != "w" && mode != "a" ==> s == Saved(Err(InvalidMode), file)
    ensures s.result.Err? <==> !data.Array? || (mode != "w" && mode != "a")
    // A file that cannot be opened is left alone and 0 is returned.
    ensures s.result.Ok? && !opens ==> s == Saved(Ok(0), file)
    // Append mode never loses what was there; write mode discards it.
    ensures s.result.Ok? && mode == "a" ==> |file| <= |s.file| && s.file[..|file|] == file
    ensures s.result.Ok? && mode == "w" && opens ==> s.file == WriteRecords(data.items, dumps).text
    // The count is all-or-nothing: the list's length when every element was
    // written, else 0 (the caught exception's return value).
    ensures s.result.Ok? && opens ==>
      s.result.value == (if forall i :: 0 <= i < |data.items| ==> Writable(data.items[i], dumps)
                         then |data.items| else 0)
  {
    if !data.Array? then Saved(Err(NotAList), file)
    else if mode != "w" && mode != "a" then Saved(Err(InvalidMode), file)
    else if !opens then Saved(Ok(0), file)
    else
      var start := if mode == "w" then "" else file;
      var w := WriteRecords(data.items, dumps);
      Saved(Ok(if w.complete then w.count else 0), start + w.text)
  }

  /** Exceptions `read_jsonl` raises: the `ValueError` for a bad
      `return_type`, the `ValueError` wrapping a decode error under the
      "raise" policy (carrying the raw line), and a failed `open`. */
  datatype ReadError = InvalidReturnType | Malformed(line: string) | CannotOpen

  /** The inner `process_line`: `Null` (Python `None`) for a blank line and
      for a malformed line under any policy other than "raise"; otherwise
      the decoded value of the stripped line. */
  function ProcessLine(line: string, errorHandling: string, loads: Loads): (r: Result<Value, ReadError>)
    ensures PyStr.IsBlank(line) ==> r == Ok(Null)
    ensures r.Err? <==> !PyStr.IsBlank(line) && loads(PyStr.Strip(line)).None? && errorHandling == "raise"
    ensures r.Err? ==> r.error == Malformed(line)
    ensures r.Ok? && r.value != Null ==> loads(PyStr.Strip(line)) == Some(r.value)
  {
    var stripped := PyStr.Strip(line);
    if stripped == [] then Ok(Null)
    else match loads(stripped)
      case Some(v) => Ok(v)
      case None =>
        if errorHandling == "raise" then Err(Malformed(line))
        else if errorHandling == "replace" then Ok(Null)
        else Ok(Null)
  }

  /** The other direction: a line that is not blank and parses gives the
      parsed value, whatever the policy. */
  lemma ProcessLineParses(line: string, errorHandling: string, loads: Loads)
    ensures !PyStr.IsBlank(line) && loads(PyStr.Strip(line)).Some? ==>
      ProcessLine(line, errorHandling, loads) == Ok(loads(PyStr.Strip(line)).value)
  {
  }

  /** What iterating over the lines produces: the records yielded, in order,
      and the exception that ended the iteration early, if any. */
  datatype Stream = Stream(records: seq<Value>, stop: Option<ReadError>)

  /** `process_line` applied to every line of the file, in file order. */
  function Results(lines: seq<string>, errorHandling: string, loads: Loads): (rs: seq<Result<Value, ReadError>>)
    ensures |rs| == |lines|
  {
    if lines == [] then []
    else [ProcessLine(lines[0], errorHandling, loads)] + Results(lines[1..], errorHandling, loads)
  }

  /** Result i is `process_line` of line i. */
  lemma {:induction false} ResultsPointwise(lines: seq<string>, errorHandling: string, loads: Loads)
    ensures forall i :: 0 <= i < |lines| ==>
      Results(lines, errorHandling, loads)[i] == ProcessLine(lines[i], errorHandling, loads)
  {
    if lines != [] {
      var rs := Results(lines, errorHandling, loads);
      var rest := Results(lines[1..], errorHandling, loads);
      ResultsPointwise(lines[1..], errorHandling, loads);
      assert rs == [ProcessLine(lines[0], errorHandling, loads)] + rest;
      forall i | 0 < i < |lines|
        ensures rs[i] == ProcessLine(lines[i], errorHandling, loads)
      {
        assert rs[i] == rest[i - 1] && lines[1..][i - 1] == lines[i];
      }
    }
  }

  /** The loop body shared by both return types, over the results of
      `process_line`: keep each result that is not `None`, stop at the
      first one that raised. */
  function Collect(results: seq<Result<Value, ReadError>>): (s: Stream)
    ensures |s.records| <= |results|
    ensures forall i :: 0 <= i < |s.records| ==> s.records[i] != Null
    ensures s.stop.Some? ==> Err(s.stop.value) in results
  {
    if results == [] then Stream([], None)
    else match results[0]
      case Err(e) => Stream([], Some(e))
      case Ok(v) =>
        var rest := Collect(results[1..]);
        Stream((if v == Null then [] else [v]) + rest.records, rest.stop)
  }

  /** Reading the lines of a file: what both the list and the generator
      branch of `read_jsonl` compute. */
  function ReadLines(lines: seq<string>, errorHandling: string, loads: Loads): (s: Stream)
    ensures |s.records| <= |lines|
    ensures forall i :: 0 <= i < |s.records| ==> s.records[i] != Null
    ensures s.stop.Some? ==> errorHandling == "raise" && s.stop.value.Malformed? && s.stop.value.line in lines
  {
    var rs := Results(lines, errorHandling, loads);
    ResultsPointwise(lines, errorHandling, loads);
    var s := Collect(rs);
    assert s.stop.Some? ==> exists i :: 0 <= i < |lines| && rs[i] == Err(s.stop.value);
    s
  }

  /** What `read_jsonl` returns: a list, or a generator described by the
      records it yields and the exception (if any) its iteration raises. */
  datatype Reader = List(records: seq<Value>) | Generator(produced: seq<Value>, stop: Option<ReadError>)

  /** `read_jsonl(path, return_type, error_handling=...)`; `file` is the
      file's text, or `None` when it cannot be opened for reading. The
      generator opens the file only when iterated, so its failures surface
      there rather than at the call. */
  function ReadJsonl(file: Option<string>, returnType: string, errorHandling: string, loads: Loads): (r: Result<Reader, ReadError>)
    ensures r == Err(InvalidReturnType) <==> returnType != "list" && returnType != "generator"
    ensures returnType == "generator" ==> r.Ok? && r.value.Generator?
    ensures returnType == "list" && r.Ok? ==> r.value.List?
    ensures returnType == "list" && file.None? ==> r == Err(CannotOpen)
    ensures r.Ok? && r.value.Generator? && file.None? ==> r.value == Generator([], Some(CannotOpen))
    ensures r.Ok? && r.value.List? ==> |r.value.records| <= |PyStr.Lines(file.value)|
  {
    if returnType == "generator" then
      match file
      case None => Ok(Generator([], Some(CannotOpen)))
      case Some(text) =>
        var s := ReadLines(PyStr.Lines(text), errorHandling, loads);
        Ok(Generator(s.records, s.stop))
    else if returnType == "list" then
      match file
      case None => Err(CannotOpen)
      case Some(text) =>
        var s := ReadLines(PyStr.Lines(text), errorHandling, loads);
        if s.stop.Some? then Err(s.stop.value) else Ok(List(s.records))
    else Err(InvalidReturnType)
  }
}
