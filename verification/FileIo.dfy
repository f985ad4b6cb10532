// src/core/file_io.cpp:58-84: a text file read line by line and replaced as a whole.

module FileIo {
  import opened ByteStrings

  /** What repeated std::getline yields: a last line without a newline still counts. */
  function Lines(text: Bytes): (lines: seq<Bytes>)
    ensures forall i :: 0 <= i < |lines| ==> '\n' !in lines[i]
  {
    if text == [] then []
    else
      var i := Find(text, '\n');
      if i == |text| then [text] else [text[..i]] + Lines(text[i + 1..])
  }

  /** Each line followed by a newline. */
  function Text(lines: seq<Bytes>): Bytes {
    if lines == [] then [] else lines[0] + "\n" + Text(lines[1..])
  }

  lemma {:induction false} TextAppend(lines: seq<Bytes>, line: Bytes)
    ensures Text(lines + [line]) == Text(lines) + line + "\n"
  {
    if lines == [] {
      assert lines + [line] == [line];
      assert Text([line]) == line + "\n" + Text([]);
    } else {
      assert (lines + [line])[1..] == lines[1..] + [line];
      TextAppend(lines[1..], line);
    }
  }

  lemma LinesOfFirst(line: Bytes, rest: Bytes)
    requires '\n' !in line
    ensures Lines(line + "\n" + rest) == [line] + Lines(rest)
  {
    var text := line + "\n" + rest;
    FindInConcat(line, '\n', rest);
    assert text[..|line|] == line && text[|line| + 1..] == rest;
  }

  lemma TextOfFirst(line: Bytes, lines: seq<Bytes>, rest: Bytes)
    ensures Text([line] + lines) + rest == line + "\n" + (Text(lines) + rest)
  {
    assert ([line] + lines)[1..] == lines;
  }

  lemma OneLineMore(line: Bytes, lines: seq<Bytes>, text: Bytes, rest: Bytes)
    requires '\n' !in line && Lines(text) == lines + Lines(rest)
    ensures Lines(line + "\n" + text) == [line] + lines + Lines(rest)
  {
    LinesOfFirst(line, text);
    assert [line] + (lines + Lines(rest)) == [line] + lines + Lines(rest);
  }

  lemma {:induction false} LinesOfText(lines: seq<Bytes>, rest: Bytes)
    requires forall i :: 0 <= i < |lines| ==> '\n' !in lines[i]
    ensures Lines(Text(lines) + rest) == lines + Lines(rest)
  {
    if lines == [] {
      assert Text(lines) + rest == rest;
    } else {
      var first, others := lines[0], lines[1..];
      LinesOfText(others, rest);
      OneLineMore(first, others, Text(others) + rest, rest);
      TextOfFirst(first, others, rest);
      assert lines == [first] + others;
    }
  }

  /** Reading back gives the lines that were written exactly when none holds a newline. */
  lemma ReadBack(lines: seq<Bytes>)
    ensures Lines(Text(lines)) == lines <==> forall i :: 0 <= i < |lines| ==> '\n' !in lines[i]
  {
    if forall i :: 0 <= i < |lines| ==> '\n' !in lines[i] {
      LinesOfText(lines, []);
      assert Text(lines) + [] == Text(lines);
    }
  }

  /** A last line without a newline counts as well. */
  lemma LastLineCounts(lines: seq<Bytes>, last: Bytes)
    requires (forall i :: 0 <= i < |lines| ==> '\n' !in lines[i]) && last != [] && '\n' !in last
    ensures Lines(Text(lines) + last) == lines + [last]
  {
    LinesOfText(lines, last);
  }

  /** How the disk treats one atomic_write_lines: where it fails, if it does. */
  datatype Disk = Healthy | NoDirectory | NoTempFile | WriteFailsAt(line: nat) | RenameFails

  /** Whether the disk lets `lines` lines through. */
  predicate Written(disk: Disk, lines: nat) {
    disk.Healthy? || (disk.WriteFailsAt? && lines <= disk.line)
  }

  class File {
    var content: Option<Bytes>    // None: the file does not exist
    var temp: Option<Bytes>       // the ".tmp" file beside it

    constructor ()
      ensures content == None
    {
      content, temp := None, None;
    }

    ghost function Stored(): Bytes
      reads this
    {
      if content.Some? then content.value else []
    }

    method ReadAllLines() returns (lines: seq<Bytes>)
      ensures lines == Lines(Stored())
    {
      lines := [];
      if content == None {
        return;
      }
      var rest := content.value;
      while rest != []
        invariant lines + Lines(rest) == Lines(content.value)
        decreases |rest|
      {
        var i := Find(rest, '\n');
        if i == |rest| {
          lines, rest := lines + [rest], [];
        } else {
          lines, rest := lines + [rest[..i]], rest[i + 1..];
        }
      }
    }

    /** All or nothing: only the rename touches the file itself. */
    method AtomicWriteLines(lines: seq<Bytes>, disk: Disk) returns (ok: bool)
      modifies this
      ensures ok <==> disk.Healthy? || (disk.WriteFailsAt? && |lines| <= disk.line)
      ensures content == if ok then Some(Text(lines)) else old(content)
    {
      if disk.NoDirectory? || disk.NoTempFile? {
        return false;
      }
      var good := true;
      var out: Bytes := [];
      for i := 0 to |lines|
        invariant good <==> !(disk.WriteFailsAt? && disk.line < i)
        invariant good ==> out == Text(lines[..i])
        invariant content == old(content)
      {
        if disk == WriteFailsAt(i) {
          good := false;
        } else if good {
          assert lines[..i + 1] == lines[..i] + [lines[i]];
          TextAppend(lines[..i], lines[i]);
          out := out + lines[i] + "\n";
        }
      }
      assert lines[..|lines|] == lines;
      temp := Some(out);
      if !good || disk.RenameFails? {
        return false;
      }
      content, temp := temp, None;
      return true;
    }
  }
}
