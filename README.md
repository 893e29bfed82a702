# rydl in Dafny: line buffer, cursor, modal key step, load and save

This project models the core of rydl, a small vi-like terminal editor written
in Rust:

- its line buffer;
- the cursor and viewport arithmetic;
- the step that handles one key in Command or Insert mode;
- the text-to-lines conversion behind loading and saving a file.

Each source file has one module:

| module | source | form |
|---|---|---|
| `LineBuffer` | src/buffer.rs | class `Buffer` over a `seq<string>` field, 1-indexed |
| `Util` | src/util.rs | the chunking loop as a method, proved against the function `Chunks` |
| `Editor` | src/editor.rs | mode, keys, the cursor (`CursorState` and the functions `MovedLeft` and the rest, plus the class `Cursor`), and the older editor, whose line vector has a sentinel at index 0 |
| `Handler` | src/handler.rs | the newer editor, which holds a `Buffer`, `current_char`, `file_name` and `modified`, and its key step |
| `IO` | src/io.rs | `Load` and `Save` on the newer editor, over an abstract file |
| `Wrappers` | — | `Option` and `Result` |

The cursor fields `x`, `y`, `current_line`, `top_line` and the terminal
`height` are grouped in one `Cursor` object, which both editor variants hold.
This way the movement rules of src/editor.rs:179-223 are written once. Each
`Cursor` method is proved equal to a pure function on `CursorState`. Those
functions state what the source keeps:

- `x` never goes left of column 5;
- up and down move `y` and `current_line` together;
- `InView` holds: row `y` shows line `current_line`, and the cursor stays in
  the text area.

Each key step has two preconditions:

- `Valid()`: the invariant that the step also preserves;
- `CanHandle(k)`: the conditions under which the Rust code does not panic.
  These are: the current line exists when a key unwraps it, `current_char - 1`
  lies within the line, and no unsigned subtraction goes below zero.

The unit test of buffer.rs is the client method
`LineBuffer.ReplaceLineScenario`. The unit test of util.rs is the lemma
`Util.SplitExample`.

Where the code does not do what a vi-like editor is expected to do, the model
follows the code:

- The buffer can be empty. `load` starts from `Buffer::new(false)`, so an empty
  file gives zero lines.
- `insert` and `remove` do not check the line number, so they have
  preconditions.
- Enter keeps the first `current_char - 1` characters on the current line. It
  pushes the rest as a new last line, not as the line after the current one,
  and it does not reset `current_char`.
- Backspace pops the last character of the current line, wherever the cursor
  is. On an empty line other than line 1 it removes that line. It never joins
  two lines.
- Moving down does not look at the buffer length, so `current_line` can pass
  the last line. After that, the keys that unwrap the current line would
  panic.
- Moving left and right works on screen columns (`x`), not on `current_char`.
  There is no tab expansion.
- Escape in Command mode differs between the two key steps. The older one
  (editor.rs) stops the editor; the newer one (handler.rs) ignores the key.
- No key step sets `modified`; only `load` and `save` clear it.
- A failed `load` leaves the buffer empty or partly filled, not as it was
  before. A successful `load` resets `current_line` and `y` but not
  `top_line`. The viewport invariant therefore holds after a load only if
  `top_line` was 1.

## Model

| member | source | states |
|---|---|---|
| `LineBuffer.Buffer.constructor` | src/buffer.rs:6-14 | `new(true)` gives exactly one empty line; `new(false)` gives none |
| `LineBuffer.Buffer.Len` | src/buffer.rs:20-22 | the number of lines |
| `LineBuffer.Buffer.IsEmpty` | src/buffer.rs:16-18 | true exactly when the length is 0 |
| `LineBuffer.Buffer.Get` | src/buffer.rs:32-38 | `Some` exactly when `1 <= n <= len`, and then it holds line `n` (index `n - 1`) |
| `LineBuffer.Buffer.GetMut` | src/buffer.rs:40-46 | the same range check and the same line as `Get` |
| `LineBuffer.Buffer.Last` | src/buffer.rs:48-50 | is `Get(len)`: line `len`, or `None` exactly when the buffer is empty |
| `LineBuffer.Buffer.Push` | src/buffer.rs:56-58 | appends the line at the end; the length grows by 1 and `Last` is the new line |
| `LineBuffer.Buffer.Pop` | src/buffer.rs:60-62 | returns the former `Last`; an empty buffer gives `None` and stays empty; otherwise the length drops by 1, and pushing the result back would restore the old lines, so it undoes `Push` |
| `LineBuffer.Buffer.Insert` | src/buffer.rs:64-66 | needs `1 <= n <= len + 1`; line `n` becomes the new line, lines before it are unchanged, the former lines `n..` move down by one |
| `LineBuffer.Buffer.Remove` | src/buffer.rs:68-70 | needs `1 <= n <= len`; returns the former line `n` and closes the gap; re-inserting it at `n` restores the old lines, so it undoes `Insert` |
| `LineBuffer.Buffer.ReplaceLine` | src/buffer.rs:72-82 | Ok exactly when `n` is in range; then line `n` is the new line, the length is unchanged and every other line is as before; Err leaves the lines unchanged |
| `LineBuffer.ReplaceLineScenario` | src/buffer.rs:103-122 | the unit test: after five pushes onto `new(true)` and the replacement of lines 2 and 5, both replacements succeed and the buffer is `["", "New line 2", "Line 2", "Line 3", "New line 5", "Line 5"]`, so lines 2 and 5 hold the new text |
| `Util.SplitStringEvery` | src/util.rs:1-12 | needs `n > 0`, because on a non-empty string `n = 0` never ends the loop; the result is `Chunks(s, n)`, its pieces joined give `s`, every piece but the last has `n` characters, the last has 1 to `n`, and there are `ceil(len(s) / n)` pieces |
| `Util.ChunksConcat` | src/util.rs:5-9 | joining the pieces gives back the string |
| `Util.ChunksLengths` | src/util.rs:5-9 | every piece but the last has exactly `n` characters; the last has between 1 and `n` |
| `Util.ChunksCount` | src/util.rs:4-9 | the number of pieces is `(len(s) + n - 1) / n`, so the empty string gives none |
| `Util.ChunksFromSkip` | src/util.rs:4-9 | the pieces the loop takes from offset `ctr` on are the pieces of what is left once `ctr` characters are skipped, so the loop's result is `Chunks(s, n)` |
| `Util.ChunksStep` | src/util.rs:5-8 | one turn of the loop: the piece at `ctr` is followed by the pieces from `ctr + n` |
| `Util.SplitExample` | src/util.rs:18-39 | the test string with `n = 3` gives five `"abc"`/`"123"` pairs minus the last `"123"`, then `"12"` |
| `Editor.MovedLeft` | src/editor.rs:179-184 | `x` goes down by one exactly when it is greater than 5, so `x >= 5` is kept; nothing else changes |
| `Editor.MovedRight` | src/editor.rs:186-191 | `x` goes up by one exactly when `x <= len + 4`, so `x <= len + 5` is kept; nothing else changes |
| `Editor.MovedUp` | src/editor.rs:193-198 | when `y > 1` both `y` and `current_line` go down by one, otherwise nothing changes; `current_line - y`, `x` and `top_line` are unchanged; `y >= 1` is kept |
| `Editor.MovedDown` | src/editor.rs:200-206 | when `y < height - 2` both go up by one, otherwise nothing changes; `current_line - y` is unchanged; `y <= height - 2` is kept; the buffer length plays no part |
| `Editor.MovedToNewLine` | src/editor.rs:208-217 | `x` goes back to `start_x`; from row `height - 3` or below, `top_line` goes up and `y` stays, otherwise `y` goes up; once the line below has become current, the cursor is `InView` again |
| `Editor.MovedToLineEnd` | src/editor.rs:219-223 | `x = len + 5`; needs `top_line <= current_line` (a `usize` subtraction); then `y` is the row that shows `current_line` |
| `Editor.Cursor.constructor` | src/editor.rs:49-54 | the cursor fields start at (1, 1, 1, 1) |
| `Editor.Cursor.MoveLeft` | src/editor.rs:179-184 | the new cursor is `MovedLeft` of the old one |
| `Editor.Cursor.MoveRight` | src/editor.rs:186-191 | the new cursor is `MovedRight` of the old one for the current line's length |
| `Editor.Cursor.MoveUp` | src/editor.rs:193-198 | the new cursor is `MovedUp` of the old one; `current_line` must not underflow |
| `Editor.Cursor.MoveDown` | src/editor.rs:200-206 | the new cursor is `MovedDown` of the old one |
| `Editor.Cursor.MoveToNewLine` | src/editor.rs:208-217 | the new cursor is `MovedToNewLine` of the old one |
| `Editor.Cursor.MoveToLineEnd` | src/editor.rs:219-223 | the new cursor is `MovedToLineEnd` of the old one |
| `Editor.Editor.constructor` | src/editor.rs:40-59 | empty line vector, cursor at (1, 1, 1, 1), Command mode, running |
| `Editor.Editor.Init` | src/editor.rs:61-64 | appends the sentinel and one empty line, and puts `x` at `start_x`; from a new editor (at least 3 rows), `Valid()` holds afterwards |
| `Editor.Start` | src/main.rs:19-21 | `new` then `init` gives `[sentinel, ""]`, `x = start_x`, `current_line = 1`, the given width and height, and a valid editor |
| `Editor.Editor.HandleKey` | src/editor.rs:229-288 | keeps `Valid()` (sentinel, at least one line, cursor in view). In Command mode: `i` enters Insert, h/j/k/l move, Escape stops the editor, and the lines never change. In Insert mode: a character is appended to the current line; Enter makes the next line current and pushes an empty one; Backspace pops the last character or removes an empty line other than line 1 and goes to the end of the line above; Escape returns to Command |
| `Handler.Editor.constructor` | src/editor.rs:40-64 | the newer editor starts with one empty `Buffer` line, the cursor at (`start_x`, 1) on line 1, `current_char = 1`, Command mode, unmodified, with the given width and height |
| `Handler.Editor.TypeChar` | src/handler.rs:72-80 | the character goes in at `current_char - 1` of the current line; other lines and the line count are unchanged; then the cursor moves right for the longer line |
| `Handler.Editor.SplitLine` | src/handler.rs:59-71 | the current line is cut to its first `current_char - 1` characters; the rest is pushed as the new last line; the line count grows by 1; `current_line` goes up by one and the cursor stays in view |
| `Handler.Editor.DeleteBack` | src/handler.rs:82-93 | on a non-empty line, drops its last character, the line count is unchanged and the cursor moves left; on an empty line other than line 1, removes it and goes to the end of the line above; on an empty line 1, changes nothing; at least one line remains |
| `Handler.Editor.HandleKey` | src/handler.rs:29-100 | keeps `Valid()` and never changes `current_char` or `modified`. In Command mode: `i` enters Insert, h/j/k/l only move, `:` ends the loop exactly when `running` is false afterwards, Escape and other keys do nothing, and the lines never change. In Insert mode the keys act as `TypeChar`, `SplitLine` and `DeleteBack`, and Escape returns to Command. A non-empty buffer stays non-empty |
| `IO.Lines` | src/io.rs:23-27 | `lines()` of the file text: no line contains `'\n'`; the empty text, and only it, gives no lines |
| `IO.WithoutNewlines` | src/io.rs:25 | `retain` leaves no `'\n'` and changes a line that has none not at all |
| `IO.SerializeSnoc` | src/io.rs:47-49 | writing one more line appends that line and `'\n'` to the output |
| `IO.LinesOfSerialize` | src/io.rs:23-49 | for lines with no `'\n'` and no trailing `'\r'`, reading back what `save` wrote gives the same lines |
| `IO.SerializeOfLines` | src/io.rs:23-49 | a text with no `'\r'`, empty or ending in `'\n'`, is written back exactly as it was read |
| `IO.Load` | src/io.rs:13-37 | without a file name: Err and nothing touched; otherwise the buffer is replaced by a new empty one; if the file cannot be opened it stays empty, and a read error leaves the lines read so far, all of them when the read after the last line fails; on Ok the buffer is the file's lines, `x = start_x`, `y = 1`, `current_line = 1`, `current_char = 1` and `modified` is false, while `top_line` is kept |
| `IO.ReadLines` | src/io.rs:23-28 | pushes the lines of the text in order, each without `'\n'`; completes exactly when no read fails, including the read after the last line, and otherwise stops with the lines before the failing read |
| `IO.Save` | src/io.rs:39-56 | without a file name, or when create or a write fails: Err and `modified` unchanged; on Ok the text written is every line followed by `'\n'` in order and `modified` is false; the buffer and cursor never change |
| `IO.SaveThenLoad` | src/io.rs:13-56 | saving a buffer of such lines and loading the same file succeeds and restores the buffer |

## Left out

- Terminal painting (src/drawer.rs and the `draw*` functions of src/editor.rs:77-177), and `EditorMode::name`, which only feeds the status bar: these are output, not state.
- The blocking key loops (`handle`, and the `for c in stdin.keys()` loop of both `handle_keys`): each `HandleKey` is one turn, and `stop` reports the `break`.
- `terminal_size` and raw mode: `width` and `height` are parameters.
- src/lua_handler.rs (an embedded Lua interpreter), src/settings.rs (declarations only), and the rest of src/main.rs beyond `Editor.Start`.
- `read_command` is not part of this model. `Handler.Editor.HandleKey` takes its outcome as the flag `commandQuits`, which says whether it cleared `running`. Any other effect it has is not modelled.
- The file system: `IO.InputFile` and `IO.OutputFile` stand for opening, reading, creating, writing and flushing. The kind of an I/O error is reduced to one `IoError` value. What a failed save leaves in the file is not modelled.
- Characters, not bytes: lines are taken to be ASCII, so `len()`, `insert`, `split_off` and column arithmetic count characters. UTF-8 char-boundary panics are not modelled.
- Editor.Cursor.MoveRight: `x` and `y` are `u16` in the source; overflow past 65535 and the truncating `as u16` in `move_cursor_eocl` (lines longer than 65530 characters) are not modelled.
- Editor.Editor.HandleKey: a `usize` or `u16` subtraction below zero is taken to panic, as in a debug build, so callers must exclude it; the wrap-around of a release build is not modelled. Keys that would panic (an unwrap of a missing line, an index past the line end) are excluded by `CanHandle` rather than modelled as a crash. The same holds for `Handler.Editor.HandleKey`.
- Handler.Editor.constructor: the newer `Editor` struct, its `new` and its `start_x()` are not part of this model. The constructor uses the values of src/editor.rs with `Buffer::new(true)`, and `start_x()` is taken to be the constant 5 of src/editor.rs:53.
- `Buffer::iter` is modelled by reading `lines` in `IO.Save`. `last_mut` is used by none of the modelled code. `set` has an empty body.
- The `line` field of the older editor is never used, so it is not modelled.
