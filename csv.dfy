/** The CSV output of a reader loop, as the list of files it has opened, in
    order, each a name, its rows (a row is the list of its cells as text) and
    whether it is still open. */
module Csv {

  type Row = seq<string>

  datatype CsvFile = CsvFile(name: string, rows: seq<Row>, isOpen: bool)

  /** The last file opened is still open. */
  predicate HasOpen(files: seq<CsvFile>) {
    |files| > 0 && files[|files| - 1].isOpen
  }

  /** Only the last file may be open, and every file starts with the header row. */
  ghost predicate Disciplined(files: seq<CsvFile>, header: Row) {
    && (forall i :: 0 <= i < |files| - 1 ==> !files[i].isOpen)
    && (forall i :: 0 <= i < |files| ==> |files[i].rows| > 0 && files[i].rows[0] == header)
  }

  /** `open(name, 'w')` followed by `writer.writerow(header)`. */
  function Open(files: seq<CsvFile>, name: string, header: Row): (r: seq<CsvFile>)
    requires !HasOpen(files)
    ensures HasOpen(r) && |r| == |files| + 1 && r[..|files|] == files
    ensures r[|files|] == CsvFile(name, [header], true)
    ensures Disciplined(files, header) ==> Disciplined(r, header)
  {
    files + [CsvFile(name, [header], true)]
  }

  /** `log_file.close()` */
  function Close(files: seq<CsvFile>): (r: seq<CsvFile>)
    requires HasOpen(files)
    ensures !HasOpen(r) && |r| == |files| && r[..|files| - 1] == files[..|files| - 1]
    ensures r[|r| - 1].name == files[|files| - 1].name && r[|r| - 1].rows == files[|files| - 1].rows
    ensures forall h :: Disciplined(files, h) ==> Disciplined(r, h)
  {
    var f := files[|files| - 1];
    files[|files| - 1 := f.(isOpen := false)]
  }

  /** `writer.writerow(row)` for each row in turn, into the open file. */
  function Write(files: seq<CsvFile>, rows: seq<Row>): (r: seq<CsvFile>)
    requires HasOpen(files)
    ensures HasOpen(r) && |r| == |files| && r[..|files| - 1] == files[..|files| - 1]
    ensures r[|r| - 1].name == files[|files| - 1].name
    ensures r[|r| - 1].rows == files[|files| - 1].rows + rows
    ensures forall h :: Disciplined(files, h) ==> Disciplined(r, h)
  {
    var f := files[|files| - 1];
    files[|files| - 1 := f.(rows := f.rows + rows)]
  }

  /** What a reader loop does with its file before it reads a line: open one,
      header first, on the rising edge of its logging condition, and close it
      on the falling edge. */
  function Edge(files: seq<CsvFile>, running: bool, condition: bool, name: string, header: Row): (r: seq<CsvFile>)
    requires running <==> HasOpen(files)
    ensures HasOpen(r) <==> condition
    ensures Disciplined(files, header) ==> Disciplined(r, header)
    ensures condition && !running ==> r == files + [CsvFile(name, [header], true)]
    ensures !condition && running ==> r == Close(files)
    ensures condition == running ==> r == files
  {
    if condition && !running then Open(files, name, header)
    else if !condition && running then Close(files)
    else files
  }

  /** The number of files still open. */
  function OpenCount(files: seq<CsvFile>): nat {
    if files == [] then 0
    else OpenCount(files[..|files| - 1]) + (if files[|files| - 1].isOpen then 1 else 0)
  }

  /** The discipline of the reader loops means at most one file is open at a
      time, and it is the last one opened. */
  lemma {:induction false} AtMostOneOpen(files: seq<CsvFile>, header: Row)
    requires Disciplined(files, header)
    ensures OpenCount(files) <= 1
    ensures OpenCount(files) == 1 <==> HasOpen(files)
  {
    if files != [] {
      var init := files[..|files| - 1];
      NoneOpen(init);
    }
  }

  lemma {:induction false} NoneOpen(files: seq<CsvFile>)
    requires forall i :: 0 <= i < |files| ==> !files[i].isOpen
    ensures OpenCount(files) == 0
  {
    if files != [] {
      NoneOpen(files[..|files| - 1]);
    }
  }
}
