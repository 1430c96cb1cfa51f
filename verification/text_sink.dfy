/**
  A line-oriented model of .NET's `TextWriter` (and of `StringBuilder`, whose
  `Append`/`AppendLine` behave the same way): the lines completed so far and
  the text written since the last line break. The concrete value of
  `Environment.NewLine` is not modelled; text is a sequence of lines.
 */
module TextSink {

  datatype Writer = Writer(lines: seq<string>, pending: string)

  /** A new `StringBuilder`, or an empty `StringWriter`. */
  const Fresh: Writer := Writer([], "")

  /** `WriteLine(s)`: completes the pending text with `s` and breaks the line. */
  function WriteLine(w: Writer, s: string): (r: Writer)
    ensures r.pending == ""
    ensures |r.lines| == |w.lines| + 1 && r.lines[..|w.lines|] == w.lines
    ensures r.lines[|w.lines|] == w.pending + s
  {
    // the empty-pending case is written out so that the common case needs no
    // reasoning about `"" + s`
    Writer(w.lines + [if w.pending == "" then s else w.pending + s], "")
  }

  /** `Write(s)`: appends `s` without breaking the line. */
  function Write(w: Writer, s: string): (r: Writer)
    ensures r.lines == w.lines && r.pending == w.pending + s
  {
    Writer(w.lines, w.pending + s)
  }

  /** The writer after `WriteLine` of each of `ls`, in order. */
  function Emit(w: Writer, ls: seq<string>): Writer
    decreases |ls|
  {
    if |ls| == 0 then w else Emit(WriteLine(w, ls[0]), ls[1..])
  }

  /** On a line boundary, emitting `ls` appends exactly `ls`. */
  lemma {:induction false} EmitOnLineBoundary(w: Writer, ls: seq<string>)
    requires w.pending == ""
    ensures Emit(w, ls) == Writer(w.lines + ls, "")
    decreases |ls|
  {
    if |ls| > 0 {
      var next := Writer(w.lines + [ls[0]], "");
      assert Emit(w, ls) == Emit(next, ls[1..]) by {
        assert WriteLine(w, ls[0]) == next;
      }
      EmitOnLineBoundary(next, ls[1..]);
      assert next.lines + ls[1..] == w.lines + ls by {
        assert [ls[0]] + ls[1..] == ls;
      }
    }
  }

  /**
    Emitting a non-empty block: the first line absorbs the pending text, the
    rest are appended as they are.
   */
  lemma EmitFirstLine(w: Writer, ls: seq<string>)
    requires |ls| > 0
    ensures Emit(w, ls) == Writer(WriteLine(w, ls[0]).lines + ls[1..], "")
  {
    EmitOnLineBoundary(WriteLine(w, ls[0]), ls[1..]);
  }

  /** Emitting two blocks one after the other is emitting their concatenation. */
  lemma {:induction false} EmitAppend(w: Writer, a: seq<string>, b: seq<string>)
    ensures Emit(w, a + b) == Emit(Emit(w, a), b)
    decreases |a|
  {
    if |a| == 0 {
      assert a + b == b;
    } else {
      assert (a + b)[0] == a[0];
      assert (a + b)[1..] == a[1..] + b;
      EmitAppend(WriteLine(w, a[0]), a[1..], b);
    }
  }
}
