/**
 * The editor of src/editor.rs: the mode, the cursor and viewport arithmetic,
 * and the older key step, which keeps its lines in a vector whose entry 0 is
 * a sentinel so that line `n` sits at index `n`.
 *
 * Screen coordinates are 1-based. Columns 1 to 4 hold the line numbers, so
 * the text of a line starts at column 5 (`1 + 4` in the source) and a
 * cursor after the last of `len` characters is at column `len + 5`. Rows
 * `height - 1` and `height` are the status bar, so text rows run from 1 to
 * `height - 2`.
 *
 * `x`, `y` and `height` are `u16` and `current_line`, `top_line` are `usize`
 * in the source; here they are `nat`, so every subtraction that would go
 * below zero (a panic) has to be excluded by the caller.
 */
module Editor {

  datatype EditorMode = Command | Insert

  /** A key event; Enter arrives as `Char('\n')`, every key not named here is `Other`. */
  datatype Key = Char(c: char) | Backspace | Esc | Other

  /** The sentinel entry 0 of the line vector (src/editor.rs:63). */
  const Sentinel: string := "----- LINE 0 -----"

  /** `start_x`, the first text column. */
  const StartX: nat := 5

  /** The cursor: screen column and row, the buffer line it is on, the first line shown. */
  datatype CursorState = CursorState(x: nat, y: nat, currentLine: nat, topLine: nat)

  /**
   * The viewport invariant: the cursor stands in the text area, on or right
   * of the first text column, and row `y` shows line `currentLine`.
   */
  predicate InView(c: CursorState, height: nat)
  {
    StartX <= c.x && 1 <= c.y <= height - 2 && 1 <= c.topLine
    && c.currentLine == c.topLine + c.y - 1
  }

  /** `move_cursor_left`: one column left, never into the line-number gutter. */
  function MovedLeft(c: CursorState): (r: CursorState)
    ensures r.y == c.y && r.currentLine == c.currentLine && r.topLine == c.topLine
    ensures r.x < c.x <==> c.x > StartX
    ensures r.x == c.x || r.x == c.x - 1
    ensures StartX <= c.x ==> StartX <= r.x
  {
    if c.x > 1 + 4 then c.(x := c.x - 1) else c
  }

  /** `move_cursor_right` on a line of `lineLen` characters: at most one column past its end. */
  function MovedRight(c: CursorState, lineLen: nat): (r: CursorState)
    ensures r.y == c.y && r.currentLine == c.currentLine && r.topLine == c.topLine
    ensures r.x > c.x <==> c.x <= lineLen + 4
    ensures r.x == c.x || r.x == c.x + 1
    ensures c.x <= lineLen + 5 ==> r.x <= lineLen + 5
  {
    if c.x <= lineLen + 4 then c.(x := c.x + 1) else c
  }

  /** `move_cursor_up`: row and line move up together, never above row 1. */
  function MovedUp(c: CursorState): (r: CursorState)
    requires c.y > 1 ==> c.currentLine >= 1
    ensures r.x == c.x && r.topLine == c.topLine
    ensures r.currentLine - r.y == c.currentLine - c.y
    ensures r.y < c.y <==> c.y > 1
    ensures c.y > 1 ==> r.y == c.y - 1
    ensures c.y <= 1 ==> r == c
    ensures 1 <= c.y ==> 1 <= r.y <= c.y
  {
    if c.y > 1 then c.(y := c.y - 1, currentLine := c.currentLine - 1) else c
  }

  /**
   * `move_cursor_down`: row and line move down together, never below the last
   * text row; the length of the buffer is not consulted.
   */
  function MovedDown(c: CursorState, height: nat): (r: CursorState)
    requires height >= 2
    ensures r.x == c.x && r.topLine == c.topLine
    ensures r.currentLine - r.y == c.currentLine - c.y
    ensures r.y > c.y <==> c.y < height - 2
    ensures c.y < height - 2 ==> r.y == c.y + 1
    ensures c.y >= height - 2 ==> r == c
    ensures c.y <= height - 2 ==> c.y <= r.y <= height - 2
  {
    if c.y < height - 2 then c.(y := c.y + 1, currentLine := c.currentLine + 1) else c
  }

  /**
   * `move_cursor_new_line`: back to the first text column, one row down, or,
   * from the last two text rows, the viewport scrolls by one line instead.
   * Called once the line below has become current, it puts that line in view.
   */
  function MovedToNewLine(c: CursorState, height: nat): (r: CursorState)
    requires height >= 3
    ensures r.x == StartX && r.currentLine == c.currentLine
    ensures c.y >= height - 3 ==> r.y == c.y && r.topLine == c.topLine + 1
    ensures c.y < height - 3 ==> r.y == c.y + 1 && r.topLine == c.topLine
    ensures 1 <= c.topLine && 1 <= c.y <= height - 2 && c.currentLine == c.topLine + c.y
            ==> InView(r, height)
  {
    if c.y >= height - 3 then c.(x := StartX, topLine := c.topLine + 1)
    else c.(x := StartX, y := c.y + 1)
  }

  /**
   * `move_cursor_eocl` on a line of `lineLen` characters: the cursor goes past
   * the end of the line and onto the row that shows the current line.
   * `current_line - top_line` is a `usize` subtraction.
   */
  function MovedToLineEnd(c: CursorState, lineLen: nat): (r: CursorState)
    requires c.topLine <= c.currentLine
    ensures r.currentLine == c.currentLine && r.topLine == c.topLine
    ensures r.x == lineLen + 5 && StartX <= r.x
    ensures r.currentLine == r.topLine + r.y - 1
  {
    c.(x := lineLen + 1 + 4, y := c.currentLine - c.topLine + 1)
  }

  /**
   * The cursor and viewport fields of the editor (`x`, `y`, `current_line`,
   * `top_line`, and the terminal `height`), with the movement methods of
   * src/editor.rs:179-223. Both editor variants hold one.
   */
  class Cursor {
    var x: nat
    var y: nat
    var currentLine: nat
    var topLine: nat
    const height: nat

    function State(): CursorState
      reads this
    {
      CursorState(x, y, currentLine, topLine)
    }

    /** The values `Editor::new` gives these fields. */
    constructor (height: nat)
      ensures State() == CursorState(1, 1, 1, 1) && this.height == height
    {
      x, y, currentLine, topLine := 1, 1, 1, 1;
      this.height := height;
    }

    method MoveLeft()
      modifies this
      ensures State() == MovedLeft(old(State()))
    {
      if x > 1 + 4 {
        x := x - 1;
      }
    }

    /** `lineLen` is the length of the current line, which the source looks up. */
    method MoveRight(lineLen: nat)
      modifies this
      ensures State() == MovedRight(old(State()), lineLen)
    {
      if x <= lineLen + 4 {
        x := x + 1;
      }
    }

    method MoveUp()
      requires y > 1 ==> currentLine >= 1
      modifies this
      ensures State() == MovedUp(old(State()))
    {
      if y > 1 {
        y := y - 1;
        currentLine := currentLine - 1;
      }
    }

    method MoveDown()
      requires height >= 2
      modifies this
      ensures State() == MovedDown(old(State()), height)
    {
      if y < height - 2 {
        y := y + 1;
        currentLine := currentLine + 1;
      }
    }

    method MoveToNewLine()
      requires height >= 3
      modifies this
      ensures State() == MovedToNewLine(old(State()), height)
    {
      if y >= height - 3 {
        x := StartX;
        topLine := topLine + 1;
      } else {
        x := StartX;
        y := y + 1;
      }
    }

    method MoveToLineEnd(lineLen: nat)
      requires topLine <= currentLine
      modifies this
      ensures State() == MovedToLineEnd(old(State()), lineLen)
    {
      x := lineLen + 1 + 4;
      y := currentLine - topLine + 1;
    }
  }

  /** The editor of src/editor.rs, with its sentinel line vector. */
  class Editor {
    const width: nat
    const cursor: Cursor
    var buffer: seq<string>
    var mode: EditorMode
    var running: bool

    /**
     * What `init` establishes and every key step keeps: the sentinel and at
     * least one real line, and the cursor in view.
     */
    ghost predicate Valid()
      reads this, cursor
    {
      |buffer| >= 2 && buffer[0] == Sentinel && InView(cursor.State(), cursor.height)
    }

    /** `Editor::new` with the terminal size given. */
    constructor (width: nat, height: nat)
      ensures this.width == width && cursor.height == height && fresh(cursor)
      ensures buffer == [] && cursor.State() == CursorState(1, 1, 1, 1)
      ensures mode == Command && running
    {
      this.width := width;
      cursor := new Cursor(height);
      buffer := [];
      mode := Command;
      running := true;
    }

    /** `init`, without the painting: cursor to the first text column, sentinel and line 1. */
    method Init()
      modifies this, cursor
      ensures buffer == old(buffer) + [Sentinel, ""]
      ensures cursor.State() == old(cursor.State()).(x := StartX)
      ensures mode == old(mode) && running == old(running)
      ensures old(buffer) == [] && old(cursor.State()) == CursorState(1, 1, 1, 1) && cursor.height >= 3
              ==> Valid() && buffer[cursor.currentLine] == ""
    {
      cursor.x := StartX;
      buffer := buffer + [Sentinel];
      buffer := buffer + [""];
    }

    /** Index `current_line` of the vector holds a line. */
    predicate OnLine()
      reads this, cursor
    {
      cursor.currentLine < |buffer|
    }

    /**
     * The key `k` does not make the step panic: the keys that unwrap the
     * current line need it to exist, and a Backspace that removes the line
     * needs the line above to be in view, or `current_line - top_line`
     * underflows on the way to the end of that line.
     */
    predicate CanHandle(k: Key)
      reads this, cursor
    {
      match mode
      case Command => k == Char('l') ==> OnLine()
      case Insert =>
        match k
        case Char(c) => c != '\n' ==> OnLine()
        case Backspace =>
          OnLine()
          && (buffer[cursor.currentLine] == "" && cursor.currentLine > 1
              ==> cursor.topLine <= cursor.currentLine - 1)
        case _ => true
    }

    /**
     * One turn of the key loop of `handle_keys`. `stop` tells whether the
     * loop ends after this key (Escape in Command mode).
     */
    method HandleKey(k: Key) returns (stop: bool)
      requires Valid() && CanHandle(k)
      modifies this, cursor
      ensures Valid()
      ensures stop <==> old(mode) == Command && k == Esc
      ensures running == (old(running) && !stop)
      // Command mode: `i` enters Insert mode, h/j/k/l move, nothing else happens.
      ensures old(mode) == Command ==> buffer == old(buffer)
      ensures old(mode) == Command ==> mode == (if k == Char('i') then Insert else Command)
      ensures old(mode) == Command ==>
        cursor.State() == (match k
          case Char('h') => MovedLeft(old(cursor.State()))
          case Char('j') => MovedDown(old(cursor.State()), cursor.height)
          case Char('k') => MovedUp(old(cursor.State()))
          case Char('l') => MovedRight(old(cursor.State()), |old(buffer)[old(cursor.currentLine)]|)
          case _ => old(cursor.State()))
      // Insert mode: the mode is kept until Escape.
      ensures old(mode) == Insert ==> mode == (if k == Esc then Command else Insert)
      ensures old(mode) == Insert && k == Char('\n') ==>
        buffer == old(buffer) + [""]
        && cursor.State() == MovedToNewLine(old(cursor.State()).(currentLine := old(cursor.currentLine) + 1), cursor.height)
      ensures old(mode) == Insert && k.Char? && k.c != '\n' ==>
        var n := old(cursor.currentLine);
        buffer == old(buffer)[n := old(buffer)[n] + [k.c]]
        && cursor.State() == MovedRight(old(cursor.State()), |buffer[n]|)
      ensures old(mode) == Insert && k == Backspace ==>
        var n := old(cursor.currentLine);
        var line := old(buffer)[n];
        if line != "" then
          buffer == old(buffer)[n := line[..|line| - 1]]
          && cursor.State() == MovedLeft(old(cursor.State()))
        else if n > 1 then
          buffer == old(buffer)[..n] + old(buffer)[n + 1..]
          && cursor.State() == MovedToLineEnd(old(cursor.State()).(currentLine := n - 1), |buffer[n - 1]|)
        else
          buffer == old(buffer) && cursor.State() == old(cursor.State())
      ensures old(mode) == Insert && (k == Esc || k == Other) ==>
        buffer == old(buffer) && cursor.State() == old(cursor.State())
    {
      stop := false;
      match mode {
        case Command =>
          match k {
            case Char('i') =>
              mode := Insert;
            case Char('h') =>
              cursor.MoveLeft();
            case Char('j') =>
              cursor.MoveDown();
            case Char('k') =>
              cursor.MoveUp();
            case Char('l') =>
              cursor.MoveRight(|buffer[cursor.currentLine]|);
            case Esc =>
              running := false;
              stop := true;
            case _ =>
          }
        case Insert =>
          match k {
            case Char(c) =>
              if c == '\n' {
                cursor.currentLine := cursor.currentLine + 1;
                cursor.MoveToNewLine();
                buffer := buffer + [""];
              } else {
                var n := cursor.currentLine;
                buffer := buffer[n := buffer[n] + [c]];
                cursor.MoveRight(|buffer[n]|);
              }
            case Backspace =>
              var n := cursor.currentLine;
              var line := buffer[n];
              if line == "" {
                if n > 1 {
                  buffer := buffer[..n] + buffer[n + 1..];
                  cursor.currentLine := n - 1;
                  cursor.MoveToLineEnd(|buffer[n - 1]|);
                }
              } else {
                buffer := buffer[n := line[..|line| - 1]];
                cursor.MoveLeft();
              }
            case Esc =>
              mode := Command;
            case _ =>
          }
      }
    }
  }

  /** `Editor::new` followed by `init`, as the program starts the editor. */
  method Start(width: nat, height: nat) returns (e: Editor)
    requires height >= 3
    ensures fresh(e) && fresh(e.cursor) && e.Valid()
    ensures e.width == width && e.cursor.height == height
    ensures e.buffer == [Sentinel, ""] && e.mode == Command && e.running
    ensures e.cursor.State() == CursorState(StartX, 1, 1, 1)
  {
    e := new Editor(width, height);
    e.Init();
  }
}
