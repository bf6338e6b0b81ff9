/** Newline-terminated records: what `operator<<` with '\n' writes and the getline/eof loops read back. */
module LineText {

  /** The outcome of one `std::getline`: the record, the read position after it, and the eof flag. */
  datatype Line = Line(record: string, next: nat, eof: bool)

  function NewlineFrom(text: string, pos: nat): (k: nat)
    requires pos <= |text|
    ensures pos <= k <= |text|
    ensures k < |text| ==> text[k] == '\n'
    ensures forall i :: pos <= i < k ==> text[i] != '\n'
    decreases |text| - pos
  {
    if pos == |text| || text[pos] == '\n' then pos else NewlineFrom(text, pos + 1)
  }

  function GetLine(text: string, pos: nat): (l: Line)
    requires pos <= |text|
    ensures l.next <= |text|
    ensures !l.eof ==> pos < l.next
  {
    var k := NewlineFrom(text, pos);
    if k == |text| then Line(text[pos..], |text|, true) else Line(text[pos..k], k + 1, false)
  }

  /** The records that `getline; while (!eof) { use(record); getline }` uses, from a read position. */
  function RecordsFrom(text: string, pos: nat): seq<string>
    requires pos <= |text|
    decreases |text| - pos
  {
    var l := GetLine(text, pos);
    if l.eof then [] else [l.record] + RecordsFrom(text, l.next)
  }

  /** The records still to come when `line` has just been read. */
  function Pending(text: string, line: Line): seq<string>
    requires line.next <= |text|
  {
    if line.eof then [] else [line.record] + RecordsFrom(text, line.next)
  }

  lemma PendingAfterGetLine(text: string, pos: nat)
    requires pos <= |text|
    ensures Pending(text, GetLine(text, pos)) == RecordsFrom(text, pos)
  {
  }

  function Records(text: string): seq<string> {
    RecordsFrom(text, 0)
  }

  function Unlines(lines: seq<string>): string {
    if lines == [] then "" else lines[0] + "\n" + Unlines(lines[1..])
  }

  lemma {:induction false} UnlinesAppend(lines: seq<string>, line: string)
    ensures Unlines(lines + [line]) == Unlines(lines) + line + "\n"
  {
    if lines == [] {
      assert lines + [line] == [line];
      assert [line][1..] == [];
    } else {
      assert (lines + [line])[1..] == lines[1..] + [line];
      UnlinesAppend(lines[1..], line);
    }
  }

  lemma GetLineAt(text: string, pos: nat, line: string, rest: string)
    requires pos <= |text| && text[pos..] == line + "\n" + rest
    requires '\n' !in line
    ensures GetLine(text, pos) == Line(line, pos + |line| + 1, false)
    ensures text[pos + |line| + 1..] == rest
  {
    var end := pos + |line|;
    forall i | pos <= i < end ensures text[i] != '\n' {
      assert text[i] == text[pos..][i - pos] == line[i - pos];
      assert line[i - pos] in line;
    }
    assert text[end] == text[pos..][|line|] == '\n';
    assert text[pos..end] == text[pos..][..|line|] == line;
    assert text[end + 1..] == text[pos..][|line| + 1..];
  }

  lemma {:induction false} RecordsAt(text: string, pos: nat, lines: seq<string>)
    requires pos <= |text| && text[pos..] == Unlines(lines)
    requires forall line <- lines :: '\n' !in line
    ensures RecordsFrom(text, pos) == lines
    decreases |lines|
  {
    hide GetLine;
    if lines == [] {
      GetLineAtEnd(text, pos);
    } else {
      var line, rest := lines[0], lines[1..];
      GetLineAt(text, pos, line, Unlines(rest));
      RecordsAt(text, pos + |line| + 1, rest);
    }
  }

  lemma GetLineAtEnd(text: string, pos: nat)
    requires pos <= |text| && text[pos..] == ""
    ensures GetLine(text, pos).eof
  {
  }

  /** Every written record is read back, in order and once. */
  lemma RecordsOfUnlines(lines: seq<string>)
    requires forall line <- lines :: '\n' !in line
    ensures Records(Unlines(lines)) == lines
  {
    assert Unlines(lines)[0..] == Unlines(lines);
    RecordsAt(Unlines(lines), 0, lines);
  }

  lemma GetLineParts(text: string, pos: nat)
    requires pos <= |text|
    ensures var l := GetLine(text, pos);
            && '\n' !in l.record
            && text[pos..] == if l.eof then l.record else l.record + "\n" + text[l.next..]
  {
  }

  lemma {:induction false} RecordsCover(text: string, pos: nat)
    requires pos <= |text|
    ensures var read := Unlines(RecordsFrom(text, pos));
            read <= text[pos..] && '\n' !in text[pos..][|read|..]
    decreases |text| - pos
  {
    hide GetLine;
    GetLineParts(text, pos);
    var l := GetLine(text, pos);
    if l.eof {
      assert Unlines(RecordsFrom(text, pos)) == "";
      assert text[pos..][0..] == text[pos..];
    } else {
      RecordsCover(text, l.next);
      var rest := RecordsFrom(text, l.next);
      UnlinesCons(l.record, rest);
      AfterPrefix(l.record + "\n", Unlines(rest), text[l.next..]);
    }
  }

  lemma UnlinesCons(line: string, rest: seq<string>)
    ensures Unlines([line] + rest) == (line + "\n") + Unlines(rest)
  {
    assert ([line] + rest)[1..] == rest;
  }

  lemma AfterPrefix(prefix: string, read: string, all: string)
    requires read <= all
    ensures prefix + read <= prefix + all
    ensures (prefix + all)[|prefix + read|..] == all[|read|..]
  {
  }

  /** The loops read all of a text exactly when it is empty or its last line is terminated;
      otherwise the unterminated tail is dropped. */
  lemma RecordsReadEverything(text: string)
    ensures Unlines(Records(text)) == text <==> text == "" || text[|text| - 1] == '\n'
  {
    RecordsCover(text, 0);
    var read := Unlines(Records(text));
    assert text[0..] == text;
    if read != "" { UnlinesTerminated(Records(text)); }
    if |read| < |text| {
      assert text[|read|..][|text| - |read| - 1] == text[|text| - 1];
    }
  }

  lemma {:induction false} UnlinesTerminated(lines: seq<string>)
    requires lines != []
    ensures Unlines(lines) != "" && Unlines(lines)[|Unlines(lines)| - 1] == '\n'
  {
    if |lines| > 1 { UnlinesTerminated(lines[1..]); }
  }
}
