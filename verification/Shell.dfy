/** The line editor of the shell task (src/task_shell.c): a 128-byte buffer edited in
    place, refining an editor on lists. */
module Shell {
  import opened Words

  const SIZE := 128
  const BS: u8 := 0x08
  const DEL: u8 := 0x7F

  predicate IsEol(c: u8) { c == 10 || c == 13 }

  predicate IsErase(c: u8) { c == BS || c == DEL }

  predicate IsPrintable(c: u8) { 32 <= c <= 126 }

  // ---- The list editor ----

  /** One byte other than an end of line. */
  function Edit(line: seq<u8>, c: u8): seq<u8>
  {
    if IsErase(c) then (if line == [] then [] else line[..|line| - 1])
    else if IsPrintable(c) && |line| < SIZE then line + [c]
    else line
  }

  /** The line left by bytes typed on an empty line. */
  function EditAll(typed: seq<u8>): seq<u8>
  {
    if typed == [] then [] else Edit(EditAll(typed[..|typed| - 1]), typed[|typed| - 1])
  }

  /** Input cut at every end of line: the completed lines, and what follows the last. */
  function Lines(input: seq<u8>): (seq<seq<u8>>, seq<u8>)
  {
    if input == [] then ([], [])
    else
      var c := input[|input| - 1];
      var (done, last) := Lines(input[..|input| - 1]);
      if IsEol(c) then (done + [last], []) else (done, last + [c])
  }

  /** The buffer holding a line: its characters, then zeros. */
  function Padded(line: seq<u8>): seq<u8>
    requires |line| <= SIZE
  {
    line + seq(SIZE - |line|, _ => 0)
  }

  /** What a C string function reads from the buffer; None if it runs off the end. */
  function CString(buf: seq<u8>): Option<seq<u8>>
  {
    if buf == [] then None
    else if buf[0] == 0 then Some([])
    else match CString(buf[1..]) case None => None case Some(s) => Some([buf[0]] + s)
  }

  /** A line is at most 128 printable characters. */
  lemma {:induction false} EditAllPrintable(typed: seq<u8>)
    ensures |EditAll(typed)| <= SIZE
    ensures forall c <- EditAll(typed) :: IsPrintable(c)
  {
    if typed != [] { EditAllPrintable(typed[..|typed| - 1]); }
  }

  lemma {:induction false} CStringPadded(line: seq<u8>, zeros: seq<u8>)
    requires 0 !in line && forall c <- zeros :: c == 0
    ensures CString(line + zeros) == if zeros == [] then None else Some(line)
  {
    var buf := line + zeros;
    if line == [] {
      assert buf == zeros;
      if zeros != [] { assert zeros[0] in zeros; }
    } else {
      assert buf[0] == line[0] && buf[1..] == line[1..] + zeros;
      CStringPadded(line[1..], zeros);
      assert line == [line[0]] + line[1..];
    }
  }

  /** The command interpreter gets a terminated string, equal to the line, if and only if
      the line is shorter than the buffer. */
  lemma TerminatedIffShort(typed: seq<u8>)
    ensures |EditAll(typed)| <= SIZE
    ensures CString(Padded(EditAll(typed))) == Some(EditAll(typed)) <==> |EditAll(typed)| < SIZE
    ensures CString(Padded(EditAll(typed))) == None <==> |EditAll(typed)| == SIZE
  {
    EditAllPrintable(typed);
    var line := EditAll(typed);
    CStringPadded(line, seq(SIZE - |line|, _ => 0));
  }

  /** ...and the full buffer does occur: 128 printable characters fill it. */
  lemma {:induction false} FullLine(n: nat)
    requires n <= SIZE
    ensures EditAll(seq(n, _ => 'a' as u8)) == seq(n, _ => 'a' as u8)
  {
    if n > 0 {
      FullLine(n - 1);
      var typed := seq(n, _ => 'a' as u8);
      assert typed[..n - 1] == seq(n - 1, _ => 'a' as u8);
    }
  }

  /** What one more key does to the line, whatever has been typed: 32 to 126 adds a
      character at its end, unless 128 are there; 8 or 127 takes the last one away, if
      there is one; and nothing else changes it. */
  lemma KeyEffect(typed: seq<u8>, c: u8)
    ensures var line, line' := EditAll(typed), EditAll(typed + [c]);
            && (32 <= c <= 126 && |line| < 128 ==> line' == line + [c])
            && ((c == 8 || c == 127) && line != [] ==> |line'| == |line| - 1 && line' <= line)
            && (32 <= c <= 126 && |line| == 128 ==> line' == line)
            && ((c == 8 || c == 127) && line == [] ==> line' == line)
            && (!(32 <= c <= 126) && c != 8 && c != 127 ==> line' == line)
  {
    assert (typed + [c])[..|typed|] == typed;
  }

  /** A full line ignores all further characters. */
  lemma {:induction false} FullLineIgnores(typed: seq<u8>, more: seq<u8>)
    requires |EditAll(typed)| == 128 && forall c <- more :: 32 <= c <= 126
    ensures EditAll(typed + more) == EditAll(typed)
  {
    if more == [] {
      assert typed + more == typed;
    } else {
      var m := |more| - 1;
      assert more[m] in more;
      forall c | c in more[..m]
        ensures c in more
      {
      }
      FullLineIgnores(typed, more[..m]);
      assert typed + more == (typed + more[..m]) + [more[m]];
      KeyEffect(typed + more[..m], more[m]);
    }
  }

  /** Only line feed and carriage return end a line. */
  lemma {:induction false} OnlyEolEndsALine(input: seq<u8>)
    ensures |Lines(input).0| == Count(input, 10) + Count(input, 13)
    ensures 10 !in Lines(input).1 && 13 !in Lines(input).1
    ensures 10 !in input && 13 !in input ==> Lines(input) == ([], input)
  {
    if input != [] {
      var m := |input| - 1;
      OnlyEolEndsALine(input[..m]);
      assert input == input[..m] + [input[m]];
    }
  }

  /** How often byte c occurs. */
  function Count(input: seq<u8>, c: u8): nat
  {
    if input == [] then 0
    else Count(input[..|input| - 1], c) + if input[|input| - 1] == c then 1 else 0
  }

  /** An erase undoes a character if and only if the line was not already full. */
  lemma EraseUndoes(line: seq<u8>, c: u8, e: u8)
    requires |line| <= SIZE && IsPrintable(c) && IsErase(e)
    ensures Edit(Edit(line, c), e) == line <==> |line| < SIZE
  {
    if |line| < SIZE { assert (line + [c])[..|line|] == line; }
  }

  /** The same editor with no limit on the line. */
  function Unlimited(typed: seq<u8>): seq<u8>
  {
    if typed == [] then []
    else
      var line, c := Unlimited(typed[..|typed| - 1]), typed[|typed| - 1];
      if IsErase(c) then (if line == [] then [] else line[..|line| - 1])
      else if IsPrintable(c) then line + [c]
      else line
  }

  /** The limit is invisible as long as no more than 128 characters are ever on the line. */
  lemma {:induction false} LimitInvisible(typed: seq<u8>)
    requires forall n :: 0 <= n <= |typed| ==> |Unlimited(typed[..n])| <= SIZE
    ensures EditAll(typed) == Unlimited(typed)
  {
    if typed != [] {
      var m := |typed| - 1;
      forall n | 0 <= n <= m
        ensures |Unlimited(typed[..m][..n])| <= SIZE
      {
        assert typed[..m][..n] == typed[..n];
      }
      LimitInvisible(typed[..m]);
      assert typed[..|typed|] == typed;
    }
  }

  /** A line never leaks into a later one: what follows an end of line is independent of
      everything before it. */
  lemma {:induction false} LinesAreIndependent(before: seq<u8>, c: u8, after: seq<u8>)
    requires IsEol(c)
    ensures Lines(before + [c] + after).0 == Lines(before).0 + [Lines(before).1] + Lines(after).0
    ensures Lines(before + [c] + after).1 == Lines(after).1
  {
    var all := before + [c] + after;
    if after == [] {
      assert all == before + [c] && all[..|all| - 1] == before;
      assert Lines(all) == (Lines(before).0 + [Lines(before).1], []);
    } else {
      var m := |after| - 1;
      LinesAreIndependent(before, c, after[..m]);
      assert all[..|all| - 1] == before + [c] + after[..m];
      assert all[|all| - 1] == after[m];
    }
  }

  // ---- The task as written ----

  class ShellTask {
    const inputBuffer: array<u8>
    var inputIdx: nat

    constructor ()
      ensures fresh(inputBuffer) && Holds([])
    {
      inputBuffer := new u8[SIZE](_ => 0);
      inputIdx := 0;
    }

    /** The buffer is the line followed by zeros, and inputIdx is the line's length. */
    ghost predicate Holds(line: seq<u8>)
      reads this, inputBuffer
    {
      |line| <= SIZE && inputIdx == |line| && inputBuffer[..] == Padded(line)
    }

    /** memset(g_input_buffer, 0, SHELL_INPUT_BUFFER_SIZE). */
    method ClearBuffer()
      requires inputBuffer.Length == SIZE
      modifies inputBuffer
      ensures inputBuffer[..] == Padded([])
    {
      for i := 0 to SIZE
        invariant forall j :: 0 <= j < i ==> inputBuffer[j] == 0
      {
        inputBuffer[i] := 0;
      }
    }

    /** An end of line: the interpreter is called with the buffer until it has no more
        output (1 + more times), then the line is cleared. */
    method EndLine(more: nat, ghost line: seq<u8>) returns (calls: seq<seq<u8>>)
      requires Holds(line)
      modifies this, inputBuffer
      ensures calls == seq(1 + more, _ => Padded(line))
      ensures Holds([])
    {
      calls := [inputBuffer[..]];
      for i := 0 to more
        invariant calls == seq(1 + i, _ => Padded(line))
        invariant Holds(line)
      {
        calls := calls + [inputBuffer[..]];
      }
      inputIdx := 0;
      ClearBuffer();
    }

    /** Any other byte. */
    method EditByte(c: u8, ghost line: seq<u8>)
      requires Holds(line) && !IsEol(c)
      modifies this, inputBuffer
      ensures Holds(Edit(line, c))
    {
      if c == BS || c == DEL {
        if inputIdx > 0 {
          inputIdx := inputIdx - 1;
          inputBuffer[inputIdx] := 0;
        }
      } else if 32 <= c && c <= 126 {
        if inputIdx < SIZE {
          inputBuffer[inputIdx] := c;
          inputIdx := inputIdx + 1;
        }
      }
    }

    /** shell_task on a stream of bytes; more[i] is how often the interpreter asks to be
        called again after byte i. passed is the buffer given to the interpreter at each
        end of line: exactly the edited line, padded. */
    method Loop(input: seq<u8>, more: seq<nat>) returns (passed: seq<seq<u8>>)
      requires Holds([]) && |more| == |input|
      modifies this, inputBuffer
      ensures |passed| == |Lines(input).0|
      ensures forall k :: 0 <= k < |passed| ==>
                |EditAll(Lines(input).0[k])| <= SIZE && passed[k] == Padded(EditAll(Lines(input).0[k]))
      ensures Holds(EditAll(Lines(input).1))
    {
      passed := [];
      for i := 0 to |input|
        invariant |passed| == |Lines(input[..i]).0|
        invariant forall k :: 0 <= k < |passed| ==>
                    && |EditAll(Lines(input[..i]).0[k])| <= SIZE
                    && passed[k] == Padded(EditAll(Lines(input[..i]).0[k]))
        invariant Holds(EditAll(Lines(input[..i]).1))
      {
        var c := input[i];
        ghost var (done, last) := Lines(input[..i]);
        assert input[..i + 1][..i] == input[..i];
        if c == 10 || c == 13 {
          var calls := EndLine(more[i], EditAll(last));
          passed := passed + [calls[0]];
        } else {
          EditByte(c, EditAll(last));
          assert (last + [c])[..|last|] == last;
        }
      }
      assert input[..|input|] == input;
    }
  }
}
