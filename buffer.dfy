/**
 * The line buffer of src/buffer.rs: a sequence of lines addressed from 1.
 * `get`, `get_mut` and `replace_line` check the line number; `insert` and
 * `remove` index the vector directly and panic on a bad number, so here they
 * carry a precondition instead.
 */
module LineBuffer {
  import opened Wrappers

  class Buffer {
    var lines: seq<string>

    /** `Buffer::new(init)`: one empty line when `init` holds, no line otherwise. */
    constructor (init: bool)
      ensures lines == if init then [""] else []
    {
      lines := [];
      new;
      if init {
        Push("");
      }
    }

    /** The number of lines. */
    function Len(): (n: nat)
      reads this
      ensures n == |lines|
    {
      |lines|
    }

    function IsEmpty(): (b: bool)
      reads this
      ensures b <==> Len() == 0
    {
      lines == []
    }

    /** Line `n`, present exactly when `n` is in `1..=len`. */
    function Get(n: nat): (r: Option<string>)
      reads this
      ensures r.Some? <==> 1 <= n <= Len()
      ensures r.Some? ==> r.value == lines[n - 1]
    {
      if 1 <= n <= |lines| then Some(lines[n - 1]) else None
    }

    /**
     * `get_mut` performs the same range check as `get` and designates the same
     * line; the callers that write through the reference it returns assign
     * the edited line back to `lines[n - 1]`.
     */
    method GetMut(n: nat) returns (r: Option<string>)
      ensures r == Get(n)
      ensures r.Some? <==> 1 <= n <= Len()
    {
      if 1 <= n <= |lines| {
        r := Some(lines[n - 1]);
      } else {
        r := None;
      }
    }

    /** The last line, which is line `len`, or nothing in an empty buffer. */
    function Last(): (r: Option<string>)
      reads this
      ensures r == Get(Len())
      ensures r.None? <==> IsEmpty()
    {
      if lines == [] then None else Some(lines[|lines| - 1])
    }

    method Push(line: string)
      modifies this
      ensures lines == old(lines) + [line]
      ensures Len() == old(Len()) + 1 && Last() == Some(line)
    {
      lines := lines + [line];
    }

    /** Removes and returns the last line; popping an empty buffer gives None. */
    method Pop() returns (r: Option<string>)
      modifies this
      ensures r == old(Last())
      ensures old(IsEmpty()) ==> lines == old(lines)
      ensures r.Some? ==> old(lines) == lines + [r.value] && Len() == old(Len()) - 1
    {
      if lines == [] {
        r := None;
      } else {
        r := Some(lines[|lines| - 1]);
        lines := lines[..|lines| - 1];
      }
    }

    /** Makes `line` line `n`; the former lines `n..` move down by one. */
    method Insert(n: nat, line: string)
      requires 1 <= n <= Len() + 1
      modifies this
      ensures lines == old(lines)[..n - 1] + [line] + old(lines)[n - 1..]
      ensures Len() == old(Len()) + 1 && Get(n) == Some(line)
      ensures forall i :: 0 <= i < n - 1 ==> lines[i] == old(lines)[i]
      ensures forall i :: n <= i < |lines| ==> lines[i] == old(lines)[i - 1]
    {
      lines := lines[..n - 1] + [line] + lines[n - 1..];
    }

    /** Takes out line `n` and closes the gap; undoes `Insert(n, line)`. */
    method Remove(n: nat) returns (line: string)
      requires 1 <= n <= Len()
      modifies this
      ensures Some(line) == old(Get(n))
      ensures lines == old(lines)[..n - 1] + old(lines)[n..]
      ensures old(lines) == lines[..n - 1] + [line] + lines[n - 1..]
      ensures Len() == old(Len()) - 1
    {
      line := lines[n - 1];
      lines := lines[..n - 1] + lines[n..];
    }

    /**
     * Replaces line `n` when it exists (by removing it and inserting `line`
     * at the same place); otherwise fails and changes nothing.
     */
    method ReplaceLine(n: nat, line: string) returns (r: Result<(), ()>)
      modifies this
      ensures r.Ok? <==> 1 <= n <= old(Len())
      ensures r.Ok? ==> lines == old(lines)[n - 1 := line] && Get(n) == Some(line)
      ensures r.Ok? ==> forall i :: 1 <= i <= Len() && i != n ==> Get(i) == old(Get(i))
      ensures r.Err? ==> lines == old(lines)
    {
      if 1 <= n <= |lines| {
        lines := lines[..n - 1] + lines[n..];
        lines := lines[..n - 1] + [line] + lines[n - 1..];
        r := Ok(());
      } else {
        r := Err(());
      }
    }
  }

  /**
   * The unit test `replace_line_test`, as a client of the contracts above.
   * `new(true)` already holds one empty line, so the pushed "Line k" is line
   * k + 1 and the replacements fall on "Line 1" and "Line 4".
   */
  method ReplaceLineScenario() returns (lines: seq<string>)
    ensures lines == ["", "New line 2", "Line 2", "Line 3", "New line 5", "Line 5"]
    ensures lines[1] == "New line 2" && lines[4] == "New line 5"
  {
    var buffer := new Buffer(true);
    buffer.Push("Line 1");
    buffer.Push("Line 2");
    buffer.Push("Line 3");
    buffer.Push("Line 4");
    buffer.Push("Line 5");
    var r2 := buffer.ReplaceLine(2, "New line 2");
    assert r2.Ok?;
    var r5 := buffer.ReplaceLine(5, "New line 5");
    assert r5.Ok?;
    assert buffer.Get(2) == Some("New line 2");
    assert buffer.Get(5) == Some("New line 5");
    lines := buffer.lines;
  }
}
