/**
 * `load` and `save` of src/io.rs. The file system is abstracted: a file to
 * read is its text or a failure, a file to write either accepts everything
 * or refuses at some point, and the text written is returned.
 */
module IO {
  import opened Wrappers
  import opened LineBuffer
  import opened E = Editor
  import opened Handler

  datatype IoError = NoFileName | OpenFailed | ReadFailed | CreateFailed | WriteFailed

  /**
   * The file `load` opens: it cannot be opened, or it holds `text`; reading
   * the line with index `readError` (invalid UTF-8, say) fails. An index equal
   * to the number of lines is the read after the last line, which would
   * otherwise report the end of the file; a larger index never comes up.
   */
  datatype InputFile = CannotOpen | File(text: string, readError: Option<nat>)

  /**
   * The file `save` creates: it cannot be created, or the write of the line
   * with index `writeError` fails (at or after the last line: the flush).
   */
  datatype OutputFile = CannotCreate | Writable(writeError: Option<nat>)

  /** `line` ends with a carriage return, which `lines()` takes off. */
  predicate EndsWithCr(line: string)
  {
    |line| > 0 && line[|line| - 1] == '\r'
  }

  /** A line `save` then `load` gives back unchanged. */
  predicate Plain(line: string)
  {
    '\n' !in line && !EndsWithCr(line)
  }

  /** What `writeln!` produces for each line in turn: the line, then `'\n'`. */
  function Serialize(lines: seq<string>): string
  {
    if lines == [] then [] else lines[0] + "\n" + Serialize(lines[1..])
  }

  /** The index of the first `'\n'` in `s`, or `|s|` when there is none. */
  function NewlineIndex(s: string): (i: nat)
    ensures i <= |s|
    ensures i < |s| ==> s[i] == '\n'
    ensures '\n' !in s[..i]
  {
    if s == [] then 0
    else if s[0] == '\n' then 0
    else
      var j := NewlineIndex(s[1..]);
      assert s[..1 + j] == [s[0]] + s[1..][..j];
      1 + j
  }

  /**
   * `BufRead::lines`: the text cut at each `'\n'`, a `'\r'` right before it
   * taken off too; a last line without `'\n'` is kept as it is, and a final
   * `'\n'` does not start another line.
   */
  function Lines(s: string): (r: seq<string>)
    ensures forall i :: 0 <= i < |r| ==> '\n' !in r[i]
    ensures r == [] <==> s == []
    decreases |s|
  {
    if s == [] then []
    else
      var i := NewlineIndex(s);
      if i == |s| then [s]
      else
        var line := s[..i];
        [if EndsWithCr(line) then line[..i - 1] else line] + Lines(s[i + 1..])
  }

  /** `line.retain(|c| c != '\n')`. */
  function WithoutNewlines(line: string): (r: string)
    ensures '\n' !in r
    ensures '\n' !in line ==> r == line
    ensures |r| <= |line|
  {
    if line == [] then []
    else if line[0] == '\n' then WithoutNewlines(line[1..])
    else [line[0]] + WithoutNewlines(line[1..])
  }

  /** Writing one more line adds that line and its `'\n'` at the end. */
  lemma {:induction false} SerializeSnoc(lines: seq<string>, line: string)
    ensures Serialize(lines + [line]) == Serialize(lines) + line + "\n"
    decreases |lines|
  {
    if lines != [] {
      assert (lines + [line])[1..] == lines[1..] + [line];
      SerializeSnoc(lines[1..], line);
    }
  }

  /** `lines()` finds the line `save` wrote first, and after its `'\n'` the rest. */
  lemma LinesCons(line: string, rest: string)
    requires Plain(line)
    ensures Lines(line + "\n" + rest) == [line] + Lines(rest)
  {
    var s := line + "\n" + rest;
    NewlineIndexOf(line, rest);
    assert s[..|line|] == line;
    assert s[|line| + 1..] == rest;
  }

  lemma {:induction false} NewlineIndexOf(line: string, rest: string)
    requires '\n' !in line
    ensures NewlineIndex(line + "\n" + rest) == |line|
    decreases |line|
  {
    if line != [] {
      assert (line + "\n" + rest)[1..] == line[1..] + "\n" + rest;
      NewlineIndexOf(line[1..], rest);
    }
  }

  /** Loading what was saved gives back the lines, provided each is `Plain`. */
  lemma {:induction false} LinesOfSerialize(lines: seq<string>)
    requires forall i :: 0 <= i < |lines| ==> Plain(lines[i])
    ensures Lines(Serialize(lines)) == lines
    decreases |lines|
  {
    if lines != [] {
      LinesOfSerialize(lines[1..]);
      LinesCons(lines[0], Serialize(lines[1..]));
    }
  }

  /**
   * Saving what was loaded gives back the text, provided it has no `'\r'` and
   * is empty or ends with `'\n'`.
   */
  lemma {:induction false} SerializeOfLines(s: string)
    requires '\r' !in s
    requires s == [] || s[|s| - 1] == '\n'
    ensures Serialize(Lines(s)) == s
    decreases |s|
  {
    if s != [] {
      var i := NewlineIndex(s);
      assert i < |s| by {
        assert s[|s| - 1] in s;
        assert s[..|s|] == s;
      }
      var rest := s[i + 1..];
      calc {
        Serialize(Lines(s));
      == { NoCrBefore(s, i); NoCrAtEnd(s[..i]); LinesSplit(s, i); }
        Serialize([s[..i]] + Lines(rest));
      == { SerializeCons(s[..i], Lines(rest)); }
        s[..i] + "\n" + Serialize(Lines(rest));
      == { SuffixKeeps(s, i + 1); SerializeOfLines(rest); }
        s[..i] + "\n" + rest;
      == { assert s[i] == '\n'; }
        s;
      }
    }
  }

  /** `lines()` cuts the first line at the first `'\n'`, when it does not end in `'\r'`. */
  lemma LinesSplit(s: string, i: nat)
    requires i == NewlineIndex(s) && i < |s|
    requires !EndsWithCr(s[..i])
    ensures Lines(s) == [s[..i]] + Lines(s[i + 1..])
  {
  }

  /** A line without `'\r'` does not end in one. */
  lemma NoCrAtEnd(line: string)
    requires '\r' !in line
    ensures !EndsWithCr(line)
  {
    if |line| > 0 {
      assert line[|line| - 1] in line;
    }
  }

  /** The text before a place in a `'\r'`-free text has no `'\r'` either. */
  lemma NoCrBefore(s: string, i: nat)
    requires '\r' !in s && i <= |s|
    ensures '\r' !in s[..i]
  {
    assert forall j :: 0 <= j < i ==> s[..i][j] == s[j] && s[j] in s;
  }

  /** A suffix of a `'\r'`-free text ending in `'\n'` is one as well. */
  lemma SuffixKeeps(s: string, k: nat)
    requires '\r' !in s && s != [] && s[|s| - 1] == '\n' && k <= |s|
    ensures '\r' !in s[k..]
    ensures s[k..] == [] || s[k..][|s[k..]| - 1] == '\n'
  {
    assert forall j :: 0 <= j < |s| - k ==> s[k..][j] == s[k + j] && s[k + j] in s;
  }

  /** `save` writes the first line, its `'\n'`, then the rest. */
  lemma SerializeCons(line: string, lines: seq<string>)
    ensures Serialize([line] + lines) == line + "\n" + Serialize(lines)
  {
    assert ([line] + lines)[1..] == lines;
  }

  /**
   * `IO::load`. Without a file name nothing is touched. Otherwise the buffer
   * is replaced by an empty one first, so a file that cannot be opened or
   * read leaves it empty or holding the lines read so far, with the cursor
   * as it was. On success the buffer holds the file's lines, the cursor is
   * on line 1 at the first text column and `modified` is cleared; `top_line`
   * is not reset, so the viewport invariant holds again only if it was 1.
   */
  method Load(e: Handler.Editor, file: InputFile) returns (r: Result<(), IoError>)
    modifies e, e.cursor
    ensures r == Err(NoFileName) <==> old(e.fileName) == ""
    ensures r == Err(NoFileName) ==>
      e.buffer == old(e.buffer) && e.buffer.lines == old(e.buffer.lines)
      && e.cursor.State() == old(e.cursor.State()) && e.currentChar == old(e.currentChar)
      && e.modified == old(e.modified)
    ensures r != Err(NoFileName) ==> fresh(e.buffer)
    ensures r == Err(OpenFailed) <==> old(e.fileName) != "" && file.CannotOpen?
    ensures r == Err(OpenFailed) ==> e.buffer.lines == []
    ensures r == Err(ReadFailed) <==>
      old(e.fileName) != "" && file.File? && file.readError.Some?
      && file.readError.value <= |Lines(file.text)|
    ensures r == Err(ReadFailed) ==> e.buffer.lines == Lines(file.text)[..file.readError.value]
    ensures r.Err? ==>
      e.cursor.State() == old(e.cursor.State()) && e.currentChar == old(e.currentChar)
      && e.modified == old(e.modified)
    ensures r.Ok? <==>
      old(e.fileName) != "" && file.File?
      && (file.readError.None? || file.readError.value > |Lines(file.text)|)
    ensures r.Ok? ==>
      e.buffer.lines == Lines(file.text)
      && e.cursor.State() == CursorState(StartX, 1, 1, old(e.cursor.topLine))
      && e.currentChar == 1 && !e.modified
    ensures r.Ok? && old(e.Valid()) ==> (e.Valid() <==> old(e.cursor.topLine) == 1)
    ensures e.fileName == old(e.fileName) && e.mode == old(e.mode) && e.running == old(e.running)
  {
    if e.fileName == "" {
      return Err(NoFileName);
    }
    var b := new Buffer(false);
    e.buffer := b;
    if file.CannotOpen? {
      return Err(OpenFailed);
    }
    var complete := ReadLines(b, file.text, file.readError);
    if !complete {
      return Err(ReadFailed);
    }
    e.cursor.x := StartX;
    e.cursor.y := 1;
    e.currentChar := 1;
    e.cursor.currentLine := 1;
    e.modified := false;
    return Ok(());
  }

  /**
   * The loop of `IO::load`: pushes the lines of `text` one by one, each with
   * its `'\n'` taken out, until reading the line with index `readError` fails;
   * a failure at index `|Lines(text)|` comes after every line is pushed.
   */
  method ReadLines(b: Buffer, text: string, readError: Option<nat>) returns (complete: bool)
    requires b.lines == []
    modifies b
    ensures complete <==> readError.None? || readError.value > |Lines(text)|
    ensures complete ==> b.lines == Lines(text)
    ensures !complete ==> b.lines == Lines(text)[..readError.value]
  {
    var lines := Lines(text);
    for i := 0 to |lines|
      invariant b.lines == lines[..i]
      invariant readError.Some? ==> readError.value >= i
    {
      if readError == Some(i) {
        return false;
      }
      var line := WithoutNewlines(lines[i]);
      b.Push(line);
    }
    assert lines[..|lines|] == lines;
    return readError != Some(|lines|);
  }

  /**
   * `IO::save`: writes every line followed by `'\n'`, in order, and on
   * success clears `modified` and returns the text written. Without a file
   * name, or when a write fails, `modified` stays as it was.
   */
  method Save(e: Handler.Editor, file: OutputFile) returns (r: Result<string, IoError>)
    modifies e
    ensures r == Err(NoFileName) <==> e.fileName == ""
    ensures r == Err(CreateFailed) <==> e.fileName != "" && file.CannotCreate?
    ensures r == Err(WriteFailed) <==> e.fileName != "" && file.Writable? && file.writeError.Some?
    ensures r.Ok? <==> e.fileName != "" && file == Writable(None)
    ensures r.Ok? ==> r.value == Serialize(e.buffer.lines) && !e.modified
    ensures r.Err? ==> e.modified == old(e.modified)
    ensures e.buffer == old(e.buffer) && e.cursor.State() == old(e.cursor.State())
    ensures e.currentChar == old(e.currentChar) && e.fileName == old(e.fileName)
    ensures e.mode == old(e.mode) && e.running == old(e.running)
  {
    if e.fileName == "" {
      return Err(NoFileName);
    }
    if file.CannotCreate? {
      return Err(CreateFailed);
    }
    var lines := e.buffer.lines;
    var written := "";
    for i := 0 to |lines|
      invariant written == Serialize(lines[..i])
      invariant file.writeError.Some? ==> file.writeError.value >= i
      modifies {}
    {
      if file.writeError == Some(i) {
        return Err(WriteFailed);
      }
      SerializeSnoc(lines[..i], lines[i]);
      assert lines[..i + 1] == lines[..i] + [lines[i]];
      written := written + lines[i] + "\n";
    }
    if file.writeError.Some? {
      return Err(WriteFailed);
    }
    assert lines[..|lines|] == lines;
    e.modified := false;
    return Ok(written);
  }

  /** Saving and then loading the same file restores the buffer. */
  method SaveThenLoad(e: Handler.Editor) returns (r: Result<(), IoError>)
    requires e.fileName != ""
    requires forall i :: 0 <= i < |e.buffer.lines| ==> Plain(e.buffer.lines[i])
    modifies e, e.cursor
    ensures r.Ok? && e.buffer.lines == old(e.buffer.lines) && !e.modified
  {
    var saved := Save(e, Writable(None));
    r := Load(e, File(saved.value, None));
    LinesOfSerialize(old(e.buffer.lines));
  }
}
