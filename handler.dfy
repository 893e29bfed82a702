/**
 * The key step of src/handler.rs. It acts on the newer editor, which keeps
 * its lines in a `Buffer` (src/buffer.rs) and has the fields `current_char`,
 * `file_name` and `modified` besides those of src/editor.rs; that editor's
 * declaration is not part of this model, and its cursor movement is taken to
 * be the one of src/editor.rs.
 */
module Handler {
  import opened Wrappers
  import opened LineBuffer
  import opened E = Editor

  /** The newer editor that src/handler.rs and src/io.rs act on. */
  class Editor {
    const width: nat
    const cursor: Cursor
    var buffer: Buffer
    var currentChar: nat
    var mode: EditorMode
    var running: bool
    var fileName: string
    var modified: bool

    /**
     * The cursor is in view and `current_char` is a 1-based offset. Neither the
     * number of lines nor `current_char` staying within the line is kept by
     * every step, so those are demanded key by key (`CanHandle`).
     */
    ghost predicate Valid()
      reads this, cursor
    {
      InView(cursor.State(), cursor.height) && currentChar >= 1
    }

    /**
     * The editor as it starts: one empty line (`Buffer::new(true)`), the cursor
     * on it at the first text column, Command mode, nothing modified.
     */
    constructor (width: nat, height: nat, fileName: string)
      requires height >= 3
      ensures Valid() && fresh(cursor) && fresh(buffer)
      ensures buffer.lines == [""] && currentChar == 1
      ensures cursor.State() == CursorState(StartX, 1, 1, 1) && cursor.height == height
      ensures mode == Command && running && this.fileName == fileName && !modified
      ensures this.width == width
    {
      this.width := width;
      var c := new Cursor(height);
      c.x := StartX;
      cursor := c;
      buffer := new Buffer(true);
      currentChar := 1;
      mode := Command;
      running := true;
      this.fileName := fileName;
      modified := false;
    }

    /** Line `current_line` exists, so `get_mut(current_line).unwrap()` succeeds. */
    predicate OnLine()
      reads this, cursor, buffer
    {
      1 <= cursor.currentLine <= buffer.Len()
    }

    /** `current_char - 1` is a place in the current line (`insert` and `split_off` panic otherwise). */
    predicate CharInLine()
      reads this, cursor, buffer
      requires OnLine()
    {
      1 <= currentChar <= |buffer.lines[cursor.currentLine - 1]| + 1
    }

    /**
     * The key `k` does not make the step panic: `l` and every Insert-mode key
     * but Escape unwrap the current line, typing and Enter index it at
     * `current_char - 1`, and a Backspace that removes the line needs the
     * line above in view, or `current_line - top_line` underflows.
     */
    predicate CanHandle(k: Key)
      reads this, cursor, buffer
    {
      match mode
      case Command => k == Char('l') ==> OnLine()
      case Insert =>
        match k
        case Char(_) => OnLine() && CharInLine()
        case Backspace =>
          OnLine()
          && (buffer.lines[cursor.currentLine - 1] == "" && cursor.currentLine > 1
              ==> cursor.topLine <= cursor.currentLine - 1)
        case _ => true
    }

    /** Insert mode, a character other than Enter: `c` goes in at `current_char - 1`. */
    method TypeChar(c: char)
      requires Valid() && OnLine() && CharInLine()
      modifies cursor, buffer
      ensures Valid()
      ensures var n, i := old(cursor.currentLine), currentChar - 1;
        var line := old(buffer.lines)[n - 1];
        buffer.lines == old(buffer.lines)[n - 1 := line[..i] + [c] + line[i..]]
        && cursor.State() == MovedRight(old(cursor.State()), |line| + 1)
      ensures buffer.Len() == old(buffer.Len())
    {
      var n := cursor.currentLine;
      var line := buffer.GetMut(n);
      var i := currentChar - 1;
      buffer.lines := buffer.lines[n - 1 := line.value[..i] + [c] + line.value[i..]];
      cursor.MoveRight(|buffer.lines[n - 1]|);
    }

    /**
     * Insert mode, Enter: the current line keeps its first `current_char - 1`
     * characters (`split_off`); the rest is pushed as a new LAST line, and the
     * line below the current one becomes current.
     */
    method SplitLine()
      requires Valid() && OnLine() && CharInLine()
      modifies cursor, buffer
      ensures Valid()
      ensures var n, i := old(cursor.currentLine), currentChar - 1;
        var line := old(buffer.lines)[n - 1];
        buffer.lines == old(buffer.lines)[n - 1 := line[..i]] + [line[i..]]
        && cursor.State() == MovedToNewLine(old(cursor.State()).(currentLine := n + 1), cursor.height)
      ensures buffer.Len() == old(buffer.Len()) + 1
    {
      var n := cursor.currentLine;
      var line := buffer.GetMut(n);
      var i := currentChar - 1;
      var toNextLine := line.value[i..];
      buffer.lines := buffer.lines[n - 1 := line.value[..i]];
      buffer.Push(toNextLine);
      cursor.currentLine := cursor.currentLine + 1;
      cursor.MoveToNewLine();
    }

    /**
     * Insert mode, Backspace: pops the LAST character of the current line,
     * wherever the cursor is; on an empty line other than line 1 it removes
     * the line and goes to the end of the line above; on an empty line 1 it
     * does nothing.
     */
    method DeleteBack()
      requires Valid() && OnLine()
      requires buffer.lines[cursor.currentLine - 1] == "" && cursor.currentLine > 1
               ==> cursor.topLine <= cursor.currentLine - 1
      modifies cursor, buffer
      ensures Valid()
      ensures var n := old(cursor.currentLine);
        var line := old(buffer.lines)[n - 1];
        if line != "" then
          buffer.lines == old(buffer.lines)[n - 1 := line[..|line| - 1]]
          && cursor.State() == MovedLeft(old(cursor.State()))
        else if n > 1 then
          buffer.lines == old(buffer.lines)[..n - 1] + old(buffer.lines)[n..]
          && cursor.State() == MovedToLineEnd(old(cursor.State()).(currentLine := n - 1), |buffer.lines[n - 2]|)
        else
          buffer.lines == old(buffer.lines) && cursor.State() == old(cursor.State())
      ensures buffer.Len() == old(buffer.Len()) - (if old(buffer.lines)[old(cursor.currentLine) - 1] == ""
                                                      && old(cursor.currentLine) > 1 then 1 else 0)
      ensures buffer.Len() >= 1
    {
      var n := cursor.currentLine;
      var line := buffer.GetMut(n);
      if line.value == "" {
        if n > 1 {
          var removed := buffer.Remove(n);
          cursor.currentLine := n - 1;
          var above := buffer.Get(cursor.currentLine);
          cursor.MoveToLineEnd(|above.value|);
        }
      } else {
        buffer.lines := buffer.lines[n - 1 := line.value[..|line.value| - 1]];
        cursor.MoveLeft();
      }
    }

    /**
     * One turn of the key loop of `Handler::handle_keys`. `commandQuits` is
     * the outcome of `read_command` after `:`, which is not part of this
     * model: whether it cleared `running`. `stop` tells whether the loop ends.
     * Nothing here sets `modified` or moves `current_char`.
     */
    method HandleKey(k: Key, commandQuits: bool) returns (stop: bool)
      requires Valid() && CanHandle(k)
      modifies this, cursor, buffer
      ensures Valid()
      ensures buffer == old(buffer) && currentChar == old(currentChar)
      ensures fileName == old(fileName) && modified == old(modified)
      ensures stop <==> old(mode) == Command && k == Char(':') && !running
      ensures running == (old(running) && !(old(mode) == Command && k == Char(':') && commandQuits))
      // Command mode: `i` enters Insert mode, h/j/k/l only move, `:` reads a
      // command, Escape and every other key do nothing.
      ensures old(mode) == Command ==> buffer.lines == old(buffer.lines)
      ensures old(mode) == Command ==> mode == (if k == Char('i') then Insert else Command)
      ensures old(mode) == Command ==>
        cursor.State() == (match k
          case Char('h') => MovedLeft(old(cursor.State()))
          case Char('j') => MovedDown(old(cursor.State()), cursor.height)
          case Char('k') => MovedUp(old(cursor.State()))
          case Char('l') => MovedRight(old(cursor.State()), |old(buffer.lines)[old(cursor.currentLine) - 1]|)
          case _ => old(cursor.State()))
      // Insert mode: the mode is kept until Escape; characters, Enter and
      // Backspace act as TypeChar, SplitLine and DeleteBack say.
      ensures old(mode) == Insert ==> mode == (if k == Esc then Command else Insert)
      ensures old(mode) == Insert && k == Char('\n') ==>
        var n, i := old(cursor.currentLine), old(currentChar) - 1;
        var line := old(buffer.lines)[n - 1];
        buffer.lines == old(buffer.lines)[n - 1 := line[..i]] + [line[i..]]
        && cursor.State() == MovedToNewLine(old(cursor.State()).(currentLine := n + 1), cursor.height)
      ensures old(mode) == Insert && k.Char? && k.c != '\n' ==>
        var n, i := old(cursor.currentLine), old(currentChar) - 1;
        var line := old(buffer.lines)[n - 1];
        buffer.lines == old(buffer.lines)[n - 1 := line[..i] + [k.c] + line[i..]]
        && cursor.State() == MovedRight(old(cursor.State()), |line| + 1)
      ensures old(mode) == Insert && k == Backspace ==>
        var n := old(cursor.currentLine);
        var line := old(buffer.lines)[n - 1];
        if line != "" then
          buffer.lines == old(buffer.lines)[n - 1 := line[..|line| - 1]]
          && cursor.State() == MovedLeft(old(cursor.State()))
        else if n > 1 then
          buffer.lines == old(buffer.lines)[..n - 1] + old(buffer.lines)[n..]
          && cursor.State() == MovedToLineEnd(old(cursor.State()).(currentLine := n - 1), |buffer.lines[n - 2]|)
        else
          buffer.lines == old(buffer.lines) && cursor.State() == old(cursor.State())
      ensures old(mode) == Insert && (k == Esc || k == Other) ==>
        buffer.lines == old(buffer.lines) && cursor.State() == old(cursor.State())
      ensures old(buffer.Len()) >= 1 ==> buffer.Len() >= 1
    {
      stop := false;
      match mode {
        case Command =>
          match k {
            case Char('i') =>
              mode := Insert;
            case Char('h') =>
              cursor.MoveLeft();
            case Char('j') =>
              cursor.MoveDown();
            case Char('k') =>
              cursor.MoveUp();
            case Char('l') =>
              var line := buffer.Get(cursor.currentLine);
              cursor.MoveRight(|line.value|);
            case Char(':') =>
              if commandQuits {
                running := false;
              }
              if !running {
                stop := true;
              }
            case _ =>
          }
        case Insert =>
          match k {
            case Char(c) =>
              if c == '\n' {
                SplitLine();
              } else {
                TypeChar(c);
              }
            case Backspace =>
              DeleteBack();
            case Esc =>
              mode := Command;
            case _ =>
          }
      }
    }
  }
}
