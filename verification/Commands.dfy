/** The commands clamd accepts and how a received command line is recognised. */
module Commands {
  import opened Options

  type Bytes = string

  datatype Command =
    | Unknown | Shutdown | Reload | SelfCheck | End | Scan | Ping | ContScan | Version | MultiScan | Fildes | Stats
    | IdSession | Instream | ListCommands | DetStatsClear | DetStats | AllMatchScan

  datatype Entry = Entry(text: Bytes, command: Command, needArg: bool, supportOld: bool)

  /** The table in its order; VERSIONCOMMANDS stands before VERSION because of the common prefix. */
  const TABLE: seq<Entry> := [
    Entry("SCAN", Scan, true, true),
    Entry("QUIT", Shutdown, false, true),
    Entry("RELOAD", Reload, false, true),
    Entry("SELFCHECK", SelfCheck, false, true),
    Entry("PING", Ping, false, true),
    Entry("CONTSCAN", ContScan, true, true),
    Entry("VERSIONCOMMANDS", ListCommands, false, false),
    Entry("VERSION", Version, false, true),
    Entry("END", End, false, false),
    Entry("SHUTDOWN", Shutdown, false, true),
    Entry("MULTISCAN", MultiScan, true, true),
    Entry("FILDES", Fildes, false, true),
    Entry("STATS", Stats, false, false),
    Entry("IDSESSION", IdSession, false, false),
    Entry("INSTREAM", Instream, false, false),
    Entry("DETSTATSCLEAR", DetStatsClear, false, true),
    Entry("DETSTATS", DetStats, false, true),
    Entry("ALLMATCHSCAN", AllMatchScan, true, false)]

  datatype Parsed = Parsed(command: Command, argument: Option<Bytes>)

  /** What a table entry makes of a line that starts with its text. */
  function Interpret(e: Entry, line: Bytes, oldStyle: bool): Parsed
    requires e.text <= line
  {
    var rest := line[|e.text|..];
    if e.needArg then
      if rest == [] then Parsed(Unknown, None)
      else Parsed(if oldStyle && !e.supportOld then Unknown else e.command, Some(rest[1..]))
    else
      if rest != [] || (oldStyle && !e.supportOld) then Parsed(Unknown, None)
      else Parsed(e.command, None)
  }

  /** The first entry, from position i on, whose text starts the line. */
  function FirstMatch(table: seq<Entry>, line: Bytes, i: nat): (r: nat)
    requires i <= |table|
    ensures i <= r <= |table|
    ensures r < |table| ==> table[r].text <= line
    ensures forall j :: i <= j < r ==> !(table[j].text <= line)
    decreases |table| - i
  {
    if i == |table| then i
    else if table[i].text <= line then i
    else FirstMatch(table, line, i + 1)
  }

  function RecogniseIn(table: seq<Entry>, line: Bytes, oldStyle: bool): Parsed {
    var i := FirstMatch(table, line, 0);
    if i < |table| then Interpret(table[i], line, oldStyle) else Parsed(Unknown, None)
  }

  function Recognise(line: Bytes, oldStyle: bool): Parsed {
    RecogniseIn(TABLE, line, oldStyle)
  }

  /** `parse_command` */
  method ParseCommand(table: seq<Entry>, line: Bytes, oldStyle: bool) returns (p: Parsed)
    ensures p == RecogniseIn(table, line, oldStyle)
    ensures p.command != Unknown ==>
              exists i :: 0 <= i < |table| && table[i].text <= line && table[i].command == p.command &&
                          line[|table[i].text|..] ==
                            if table[i].needArg && p.argument.Some? && line != table[i].text
                            then [line[|table[i].text|]] + p.argument.value else []
  {
    var i := 0;
    while i < |table|
      invariant 0 <= i <= |table| && FirstMatch(table, line, 0) == FirstMatch(table, line, i)
    {
      var e := table[i];
      if e.text <= line {
        var rest := line[|e.text|..];
        if e.needArg {
          if rest == [] {
            return Parsed(Unknown, None);
          }
          p := Parsed(if oldStyle && !e.supportOld then Unknown else e.command, Some(rest[1..]));
          assert rest == [rest[0]] + rest[1..];
          return;
        }
        if rest != [] {
          return Parsed(Unknown, None);
        }
        if oldStyle && !e.supportOld {
          return Parsed(Unknown, None);
        }
        return Parsed(e.command, None);
      }
      i := i + 1;
    }
    return Parsed(Unknown, None);
  }

  lemma {:induction false} FirstMatchIs(table: seq<Entry>, line: Bytes, i: nat, k: nat)
    requires i <= k < |table| && table[k].text <= line
    requires forall j :: i <= j < k ==> !(table[j].text <= line)
    ensures FirstMatch(table, line, i) == k
    decreases k - i
  {
    if i < k {
      FirstMatchIs(table, line, i + 1, k);
    }
  }

  const HEADS: Bytes := "SQRSPCVVESMFSIIDDA"

  /** The first letters of the table. */
  lemma TableHead(j: nat)
    requires j < |TABLE|
    ensures j < |HEADS| && |TABLE[j].text| > 0 && TABLE[j].text[0] == HEADS[j]
  {
    match j
    case 0 => case 1 => case 2 => case 3 => case 4 => case 5 => case 6 => case 7 => case 8 => case 9 =>
    case 10 => case 11 => case 12 => case 13 => case 14 => case 15 => case 16 => case _ =>
  }

  /** A line is recognised by the first entry with its first letter, if that entry's text starts it. */
  lemma RecognisedBy(line: Bytes, k: nat)
    requires k < |TABLE| && TABLE[k].text <= line && line != []
    requires forall j :: 0 <= j < k && j < |HEADS| ==> HEADS[j] != line[0]
    ensures Recognise(line, false) == Interpret(TABLE[k], line, false)
  {
    forall j | 0 <= j < k ensures !(TABLE[j].text <= line) {
      TableHead(j);
    }
    FirstMatchIs(TABLE, line, 0, k);
  }

  // --- What each command text means ------------------------------------------------------

  /** How a command is written, as the manual lists them; QUIT is an older way to write SHUTDOWN. */
  function TextOf(c: Command): Bytes
    requires c != Unknown
  {
    match c
    case Shutdown => "SHUTDOWN"
    case Reload => "RELOAD"
    case SelfCheck => "SELFCHECK"
    case End => "END"
    case Scan => "SCAN"
    case Ping => "PING"
    case ContScan => "CONTSCAN"
    case Version => "VERSION"
    case MultiScan => "MULTISCAN"
    case Fildes => "FILDES"
    case Stats => "STATS"
    case IdSession => "IDSESSION"
    case Instream => "INSTREAM"
    case ListCommands => "VERSIONCOMMANDS"
    case DetStatsClear => "DETSTATSCLEAR"
    case DetStats => "DETSTATS"
    case AllMatchScan => "ALLMATCHSCAN"
  }

  /** The commands that name a file. */
  predicate NamesFile(c: Command) {
    c.Scan? || c.ContScan? || c.MultiScan? || c.AllMatchScan?
  }

  /** The commands that may also be sent without `z` or `n` in front. */
  predicate OldStyleToo(c: Command) {
    !(c.End? || c.Stats? || c.IdSession? || c.Instream? || c.ListCommands? || c.AllMatchScan?)
  }

  /** A command line without its frame. */
  function CommandLine(c: Command, filename: Bytes): Bytes
    requires c != Unknown
  {
    if NamesFile(c) then TextOf(c) + " " + filename else TextOf(c)
  }

  /** The second letters of the table. */
  const SECONDS: Bytes := "CUEEIOEENHUITDNEEL"

  lemma TableSecond(j: nat)
    requires j < |TABLE|
    ensures j < |SECONDS| && |TABLE[j].text| > 1 && TABLE[j].text[1] == SECONDS[j]
  {
    match j
    case 0 => case 1 => case 2 => case 3 => case 4 => case 5 => case 6 => case 7 => case 8 => case 9 =>
    case 10 => case 11 => case 12 => case 13 => case 14 => case 15 => case 16 => case _ =>
  }

  /** A line is recognised by the first entry that fits its first two letters and is not longer. */
  lemma RecognisedByTwo(line: Bytes, k: nat, oldStyle: bool)
    requires k < |TABLE| && TABLE[k].text <= line && |line| >= 2
    requires forall j :: 0 <= j < k ==>
               || (j < |HEADS| && HEADS[j] != line[0]) || (j < |SECONDS| && SECONDS[j] != line[1])
               || |TABLE[j].text| > |line|
    ensures Recognise(line, oldStyle) == Interpret(TABLE[k], line, oldStyle)
  {
    hide FirstMatch;
    forall j | 0 <= j < k ensures !(TABLE[j].text <= line) {
      TableHead(j);
      TableSecond(j);
    }
    FirstMatchIs(TABLE, line, 0, k);
  }

  /** The place of a command in the table. */
  function PlaceOf(c: Command): nat
    requires c != Unknown
  {
    match c
    case Shutdown => 9
    case Reload => 2
    case SelfCheck => 3
    case End => 8
    case Scan => 0
    case Ping => 4
    case ContScan => 5
    case Version => 7
    case MultiScan => 10
    case Fildes => 11
    case Stats => 12
    case IdSession => 13
    case Instream => 14
    case ListCommands => 6
    case DetStatsClear => 15
    case DetStats => 16
    case AllMatchScan => 17
  }

  predicate Stands(c: Command, k: nat)
    requires c != Unknown
  {
    k < |TABLE| && TABLE[k] == Entry(TextOf(c), c, NamesFile(c), OldStyleToo(c))
  }

  lemma PlaceFacts(c: Command)
    requires c != Unknown
    ensures Stands(c, PlaceOf(c))
  {
    hide Stands;
    if PlaceOf(c) < 9 {
      FirstHalf(c);
    } else {
      SecondHalf(c);
    }
  }

  lemma FirstHalf(c: Command)
    requires c != Unknown && PlaceOf(c) < 9
    ensures Stands(c, PlaceOf(c))
  {
  }

  lemma SecondHalf(c: Command)
    requires c != Unknown && PlaceOf(c) >= 9
    ensures Stands(c, PlaceOf(c))
  {
  }

  /** No earlier entry starts with the same two letters. */
  predicate NoneBefore(k: nat) {
    k < |HEADS| && k < |SECONDS| && forall j :: 0 <= j < k ==> HEADS[j] != HEADS[k] || SECONDS[j] != SECONDS[k]
  }

  lemma FirstOfItsKind(k: nat)
    requires k < 18 && k != 7 && k != 16
    ensures NoneBefore(k)
  {
  }

  /** VERSION and DETSTATS come after longer commands that they start. */
  lemma PrefixPairs(c: Command)
    requires c.Version? || c.DetStats?
    ensures var k := if c.Version? then 7 else 16;
            forall j :: 0 <= j < k ==>
              HEADS[j] != HEADS[k] || SECONDS[j] != SECONDS[k] || |TABLE[j].text| > |TextOf(c)|
  {
  }

  lemma LineStarts(c: Command, filename: Bytes)
    requires c != Unknown && |TextOf(c)| > 1
    ensures var line := CommandLine(c, filename);
            TextOf(c) <= line && |line| > 1 && line[0] == TextOf(c)[0] && line[1] == TextOf(c)[1]
  {
  }

  lemma FileCut(e: Entry, filename: Bytes, oldStyle: bool)
    requires e.needArg
    ensures Interpret(e, e.text + " " + filename, oldStyle) ==
            Parsed(if oldStyle && !e.supportOld then Unknown else e.command, Some(filename))
  {
    var line := e.text + " " + filename;
    assert line[|e.text|..] == " " + filename;
    assert (" " + filename)[1..] == filename;
  }

  lemma PlainCut(e: Entry, oldStyle: bool)
    requires !e.needArg
    ensures Interpret(e, e.text, oldStyle) == Parsed(if oldStyle && !e.supportOld then Unknown else e.command, None)
  {
  }

  /** Every command, written as the manual says, is understood as that command and with that file name. */
  lemma TextMeans(c: Command, filename: Bytes, oldStyle: bool)
    requires c != Unknown
    ensures Recognise(CommandLine(c, filename), oldStyle) ==
            Parsed(if oldStyle && !OldStyleToo(c) then Unknown else c, if NamesFile(c) then Some(filename) else None)
  {
    hide Recognise, Interpret, TextOf, OldStyleToo;
    var k := PlaceOf(c);
    PlaceFacts(c);
    TableHead(k);
    TableSecond(k);
    LineStarts(c, filename);
    if c.Version? || c.DetStats? {
      PrefixPairs(c);
    } else {
      FirstOfItsKind(k);
    }
    RecognisedByTwo(CommandLine(c, filename), k, oldStyle);
    if NamesFile(c) {
      FileCut(TABLE[k], filename, oldStyle);
    } else {
      PlainCut(TABLE[k], oldStyle);
    }
  }

  lemma QuitMeans()
    ensures Recognise("QUIT", false) == Parsed(Shutdown, None)
  {
    hide Recognise;
    RecognisedBy("QUIT", 1);
  }

  /** The scan commands that `dsresult` sends with a file name. */
  datatype ScanType = Cont | Multi | AllMatch

  function ScanText(t: ScanType): Bytes {
    match t case Cont => "CONTSCAN" case Multi => "MULTISCAN" case AllMatch => "ALLMATCHSCAN"
  }

  function ScanCommand(t: ScanType): Command {
    match t case Cont => ContScan case Multi => MultiScan case AllMatch => AllMatchScan
  }

  /** The bytes `dsresult` builds, terminator included. */
  function EncodeScan(t: ScanType, filename: Bytes): Bytes {
    "z" + ScanText(t) + " " + filename + ['\0']
  }

  /** An entry that takes an argument cuts it off behind one separator. */
  lemma ArgumentCut(e: Entry, filename: Bytes)
    requires e.needArg
    ensures Interpret(e, e.text + " " + filename, false) == Parsed(e.command, Some(filename))
  {
    var line := e.text + " " + filename;
    assert line[|e.text|..] == " " + filename;
    assert (" " + filename)[1..] == filename;
  }

  lemma ScanEntry(t: ScanType) returns (k: nat)
    ensures k < |TABLE| && TABLE[k] == Entry(ScanText(t), ScanCommand(t), true, t != AllMatch)
    ensures |ScanText(t)| > 0 && forall j :: 0 <= j < k && j < |HEADS| ==> HEADS[j] != ScanText(t)[0]
  {
    k := match t case Cont => 5 case Multi => 10 case AllMatch => 17;
  }

  /** What a scan request means to the server is what the client asked for. */
  lemma ScanRecognised(t: ScanType, filename: Bytes)
    ensures Recognise(ScanText(t) + " " + filename, false) == Parsed(ScanCommand(t), Some(filename))
  {
    hide Recognise, Interpret, ScanText, ScanCommand;
    var k := ScanEntry(t);
    ArgumentCut(TABLE[k], filename);
    RecognisedBy(ScanText(t) + " " + filename, k);
  }
}
