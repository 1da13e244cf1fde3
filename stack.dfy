/**
 * stack.go: a StackTrace wraps a shared, consumable cursor over resolved call
 * frames (innermost first), and Format renders it for the fmt verbs %s, %v,
 * %+v and any other verb. Both rendering loops pull frames with Next until it
 * reports that no further frame follows.
 */
module Stack {
  import opened Wrappers
  import opened Text

  /** A resolved call frame: function name (runtime.Frame.Function), source file and line. */
  datatype Frame = Frame(name: string, file: string, line: int)

  /** The zero Frame that Next returns once every frame has been handed out. */
  const ZeroFrame := Frame("", "", 0)

  /** The cursor (runtime.Frames): a fixed frame list and the position of the next frame. */
  class Frames {
    const frames: seq<Frame>
    var pos: nat

    ghost predicate Valid()
      reads this
    {
      pos <= |frames|
    }

    constructor (frames: seq<Frame>)
      ensures Valid() && this.frames == frames && pos == 0
    {
      this.frames := frames;
      pos := 0;
    }

    /**
     * Hands out the next frame (the zero frame once all are gone) and
     * reports whether a further valid frame follows it.
     */
    method Next() returns (frame: Frame, more: bool)
      requires Valid()
      modifies this
      ensures Valid()
      ensures old(pos) < |frames| ==> frame == frames[old(pos)] && pos == old(pos) + 1
      ensures old(pos) == |frames| ==> frame == ZeroFrame && pos == old(pos)
      ensures more <==> pos < |frames|
    {
      if pos < |frames| {
        frame := frames[pos];
        pos := pos + 1;
      } else {
        frame := ZeroFrame;
      }
      more := pos < |frames|;
    }
  }

  /** StackTrace holds the cursor by reference: copies of a StackTrace share it. */
  datatype StackTrace = StackTrace(cursor: Frames)

  /** The output side of fmt.State: its flags and the text written so far. */
  class State {
    const flags: set<char>
    var written: string

    constructor (flags: set<char>)
      ensures this.flags == flags && written == []
    {
      this.flags := flags;
      written := [];
    }

    predicate Flag(c: char) {
      c in flags
    }

    method WriteString(t: string)
      modifies this
      ensures written == old(written) + t
    {
      written := written + t;
    }
  }

  /**
   * The frames a loop that calls Next until `more` is false writes, starting
   * at position p: Next at p hands out frames[p] and reports `more` exactly
   * when frames[p + 1] exists.
   */
  function Drain(frames: seq<Frame>, p: nat): seq<Frame>
    requires p <= |frames|
    decreases |frames| - p
  {
    if p < |frames| && p + 1 < |frames| then [frames[p]] + Drain(frames, p + 1) else []
  }

  /** Where such a loop stops writing: just before the last frame, or at p when nothing is left. */
  function DrainEnd(frames: seq<Frame>, p: nat): nat
    requires p <= |frames|
  {
    if p < |frames| then |frames| - 1 else p
  }

  /**
   * Draining from p writes frames[p..DrainEnd] in cursor order, each once,
   * and never the last frame: the one that comes back with more == false.
   */
  lemma {:induction false} DrainSkipsLast(frames: seq<Frame>, p: nat)
    requires p <= |frames|
    ensures p <= DrainEnd(frames, p) <= |frames|
    ensures Drain(frames, p) == frames[p..DrainEnd(frames, p)]
    ensures |frames| > p ==> |Drain(frames, p)| == |frames| - p - 1
    decreases |frames| - p
  {
    if p + 1 < |frames| {
      DrainSkipsLast(frames, p + 1);
    }
  }

  /** Once the cursor is exhausted, another render writes no frame. */
  lemma ExhaustedDrainsNothing(frames: seq<Frame>)
    ensures Drain(frames, |frames|) == [] && DrainEnd(frames, |frames|) == |frames|
  {
  }

  const StackHeader := "\nStack Info: "

  /** " f1 f2 ...": a space and the function name for each of frames[a..b]. */
  function Names(frames: seq<Frame>, a: nat, b: nat): string
    requires a <= b <= |frames|
    decreases b - a
  {
    if a == b then "" else Names(frames, a, b - 1) + " " + frames[b - 1].name
  }

  /** "[ f1 f2 ...]", what formatSlice writes for frames[a..b]. */
  function Compact(frames: seq<Frame>, a: nat, b: nat): string
    requires a <= b <= |frames|
  {
    "[" + Names(frames, a, b) + "]"
  }

  /** "\n<function>", the first line %+v writes for a frame. */
  function FunctionLine(f: Frame): string {
    "\n" + f.name
  }

  /** "\n\t<file>:<line>", the second line %+v writes for a frame. */
  function FileLine(f: Frame): string {
    "\n\t" + f.file + ":" + Itoa(f.line)
  }

  /** Both lines %+v writes for each of frames[a..b]. */
  function Details(frames: seq<Frame>, a: nat, b: nat): string
    requires a <= b <= |frames|
    decreases b - a
  {
    if a == b then "" else Details(frames, a, b - 1) + FunctionLine(frames[b - 1]) + FileLine(frames[b - 1])
  }

  function Unsupported(verb: char): string {
    "unsupported format: %!" + [verb] + ", use %s: "
  }

  /** Everything Format writes for a verb and the '+' flag when its loop writes frames[a..b]. */
  function Render(verb: char, plus: bool, frames: seq<Frame>, a: nat, b: nat): string
    requires a <= b <= |frames|
  {
    match verb
    case 'v' => if plus then StackHeader + Details(frames, a, b) else Compact(frames, a, b)
    case 's' => Compact(frames, a, b)
    case _ => Unsupported(verb) + Compact(frames, a, b)
  }

  /** formatSlice: "[", then " " and the function name of each frame drained, then "]". */
  method FormatSlice(st: StackTrace, s: State)
    requires st.cursor.Valid()
    modifies s, st.cursor
    ensures st.cursor.Valid() && st.cursor.pos == |st.cursor.frames|
    ensures s.written == old(s.written) + Compact(st.cursor.frames, old(st.cursor.pos), DrainEnd(st.cursor.frames, old(st.cursor.pos)))
  {
    ghost var frames, p0 := st.cursor.frames, st.cursor.pos;
    assert s as object != st.cursor;
    s.WriteString("[");
    ghost var bracket := s.written;
    ghost var stop := p0;
    while true
      invariant st.cursor.Valid() && p0 <= st.cursor.pos
      invariant st.cursor.pos == p0 || st.cursor.pos < |frames|
      invariant s.written == bracket + Names(frames, p0, st.cursor.pos)
      decreases |frames| - st.cursor.pos
    {
      stop := st.cursor.pos;
      var frame, more := st.cursor.Next();
      if !more {
        break;
      }
      s.WriteString(" ");
      s.WriteString(frame.name);
      AppendAssoc(bracket, Names(frames, p0, stop) + " ", frame.name);
      AppendAssoc(bracket, Names(frames, p0, stop), " ");
    }
    s.WriteString("]");
    AppendAssoc(old(s.written), "[" + Names(frames, p0, stop), "]");
    AppendAssoc(old(s.written), "[", Names(frames, p0, stop));
  }

  /**
   * The %+v branch of Format: the header once, then for each drained frame
   * its function on a new line and "\t<file>:<line>" on the next.
   */
  method FormatDetailed(st: StackTrace, s: State)
    requires st.cursor.Valid()
    modifies s, st.cursor
    ensures st.cursor.Valid() && st.cursor.pos == |st.cursor.frames|
    ensures s.written == old(s.written) + (StackHeader + Details(st.cursor.frames, old(st.cursor.pos), DrainEnd(st.cursor.frames, old(st.cursor.pos))))
  {
    ghost var frames, p0 := st.cursor.frames, st.cursor.pos;
    assert s as object != st.cursor;
    s.WriteString(StackHeader);
    ghost var header := s.written;
    ghost var stop := p0;
    while true
      invariant st.cursor.Valid() && p0 <= st.cursor.pos
      invariant st.cursor.pos == p0 || st.cursor.pos < |frames|
      invariant s.written == header + Details(frames, p0, st.cursor.pos)
      decreases |frames| - st.cursor.pos
    {
      stop := st.cursor.pos;
      var frame, more := st.cursor.Next();
      if !more {
        break;
      }
      s.WriteString(FunctionLine(frame));
      s.WriteString(FileLine(frame));
      AppendAssoc(header, Details(frames, p0, stop) + FunctionLine(frame), FileLine(frame));
      AppendAssoc(header, Details(frames, p0, stop), FunctionLine(frame));
    }
    AppendAssoc(old(s.written), StackHeader, Details(frames, p0, stop));
  }

  /**
   * Format: %+v writes the detailed form; %s and %v without '+' (so also
   * %#v) write the compact form; any other verb writes a labelled fallback
   * followed by the compact form. Every branch drains the shared cursor.
   */
  method Format(st: StackTrace, s: State, verb: char)
    requires st.cursor.Valid()
    modifies s, st.cursor
    ensures st.cursor.Valid() && st.cursor.pos == |st.cursor.frames|
    ensures s.written == old(s.written) + Render(verb, s.Flag('+'), st.cursor.frames, old(st.cursor.pos), DrainEnd(st.cursor.frames, old(st.cursor.pos)))
  {
    ghost var frames, p0 := st.cursor.frames, st.cursor.pos;
    assert s as object != st.cursor;
    match verb
    case 'v' =>
      if s.Flag('+') {
        FormatDetailed(st, s);
      } else {
        FormatSlice(st, s);
      }
    case 's' =>
      FormatSlice(st, s);
    case _ =>
      s.WriteString(Unsupported(verb));
      FormatSlice(st, s);
      AppendAssoc(old(s.written), Unsupported(verb), Compact(frames, p0, DrainEnd(frames, p0)));
  }

  /*
   * Reference definitions: the same texts as a left-to-right fold over the
   * list of frames the loop hands out, and the lemmas tying them to the
   * position-range forms the methods are proved against.
   */

  /** " f1 f2 ...", folding from the innermost frame outwards. */
  function NamesOf(fs: seq<Frame>): string {
    if fs == [] then "" else " " + fs[0].name + NamesOf(fs[1..])
  }

  /** The two %+v lines of every frame of fs, innermost first. */
  function DetailsOf(fs: seq<Frame>): string {
    if fs == [] then "" else FunctionLine(fs[0]) + FileLine(fs[0]) + DetailsOf(fs[1..])
  }

  lemma {:induction false} NamesOfSnoc(fs: seq<Frame>, f: Frame)
    ensures NamesOf(fs + [f]) == NamesOf(fs) + " " + f.name
  {
    if fs != [] {
      assert (fs + [f])[1..] == fs[1..] + [f];
      NamesOfSnoc(fs[1..], f);
      AppendAssoc(" " + fs[0].name, NamesOf(fs[1..]) + " ", f.name);
      AppendAssoc(" " + fs[0].name, NamesOf(fs[1..]), " ");
    }
  }

  lemma {:induction false} DetailsOfSnoc(fs: seq<Frame>, f: Frame)
    ensures DetailsOf(fs + [f]) == DetailsOf(fs) + FunctionLine(f) + FileLine(f)
  {
    if fs != [] {
      var head := FunctionLine(fs[0]) + FileLine(fs[0]);
      assert (fs + [f])[1..] == fs[1..] + [f];
      DetailsOfSnoc(fs[1..], f);
      AppendAssoc(head, DetailsOf(fs[1..]) + FunctionLine(f), FileLine(f));
      AppendAssoc(head, DetailsOf(fs[1..]), FunctionLine(f));
    }
  }

  /** The compact loop's text for positions a..b is the fold over frames[a..b]. */
  lemma {:induction false} NamesAgree(frames: seq<Frame>, a: nat, b: nat)
    requires a <= b <= |frames|
    ensures Names(frames, a, b) == NamesOf(frames[a..b])
    decreases b - a
  {
    if a < b {
      NamesAgree(frames, a, b - 1);
      assert frames[a..b] == frames[a..b - 1] + [frames[b - 1]];
      NamesOfSnoc(frames[a..b - 1], frames[b - 1]);
    }
  }

  /** The detailed loop's text for positions a..b is the fold over frames[a..b]. */
  lemma {:induction false} DetailsAgree(frames: seq<Frame>, a: nat, b: nat)
    requires a <= b <= |frames|
    ensures Details(frames, a, b) == DetailsOf(frames[a..b])
    decreases b - a
  {
    if a < b {
      DetailsAgree(frames, a, b - 1);
      assert frames[a..b] == frames[a..b - 1] + [frames[b - 1]];
      DetailsOfSnoc(frames[a..b - 1], frames[b - 1]);
    }
  }

  /**
   * What Format writes from cursor position p, stated over the frames the
   * cursor hands out with `more` still true (Drain): the compact form for %s
   * and plain %v, the header and both lines per frame for %+v, the labelled
   * fallback before the compact form for any other verb.
   */
  lemma RenderIsFoldOverDrain(verb: char, plus: bool, frames: seq<Frame>, p: nat)
    requires p <= |frames|
    ensures p <= DrainEnd(frames, p) <= |frames|
    ensures var out := Render(verb, plus, frames, p, DrainEnd(frames, p));
      && (verb == 's' || (verb == 'v' && !plus) ==> out == "[" + NamesOf(Drain(frames, p)) + "]")
      && (verb == 'v' && plus ==> out == StackHeader + DetailsOf(Drain(frames, p)))
      && (verb != 'v' && verb != 's' ==> out == Unsupported(verb) + "[" + NamesOf(Drain(frames, p)) + "]")
  {
    DrainSkipsLast(frames, p);
    NamesAgree(frames, p, DrainEnd(frames, p));
    DetailsAgree(frames, p, DrainEnd(frames, p));
  }

  /**
   * Reads the names back out of " f1 f2 ...", splitting at the last space
   * each time; text that does not start with a space yields None.
   */
  function SplitNames(s: string): Option<seq<string>>
    decreases |s|
  {
    if s == [] then Some([])
    else
      var k := LastIndex(s, ' ');
      if k < 0 then None
      else match SplitNames(s[..k])
        case None => None
        case Some(names) => Some(names + [s[k + 1..]])
  }

  /** Reads "[ f1 f2 ...]" back into its function names. */
  function ParseCompact(s: string): Option<seq<string>> {
    if |s| >= 2 && s[0] == '[' && s[|s| - 1] == ']' then SplitNames(s[1..|s| - 1]) else None
  }

  predicate NoSpaceInNames(frames: seq<Frame>) {
    forall i :: 0 <= i < |frames| ==> ' ' !in frames[i].name
  }

  lemma {:induction false} SplitNamesRoundTrip(frames: seq<Frame>, a: nat, b: nat)
    requires a <= b <= |frames| && NoSpaceInNames(frames)
    ensures SplitNames(Names(frames, a, b)).Some?
    ensures var names := SplitNames(Names(frames, a, b)).value;
      |names| == b - a && forall i :: 0 <= i < b - a ==> names[i] == frames[a + i].name
    decreases b - a
  {
    if a < b {
      var prefix, name := Names(frames, a, b - 1), frames[b - 1].name;
      var s := Names(frames, a, b);
      assert ' ' !in name;
      LastIndexAfter(prefix, ' ', name);
      assert s[..|prefix|] == prefix;
      assert s[|prefix| + 1..] == name;
      SplitNamesRoundTrip(frames, a, b - 1);
      var names := SplitNames(prefix).value;
      assert SplitNames(s) == Some(names + [name]);
      forall i | 0 <= i < b - a
        ensures (names + [name])[i] == frames[a + i].name
      {
        if i < b - a - 1 {
          assert (names + [name])[i] == names[i];
        }
      }
    }
  }

  /**
   * The compact form loses nothing when no function name holds a space: it
   * reads back as the names of the frames written, in cursor order.
   */
  lemma CompactRoundTrip(frames: seq<Frame>, a: nat, b: nat)
    requires a <= b <= |frames| && NoSpaceInNames(frames)
    ensures ParseCompact(Compact(frames, a, b)).Some?
    ensures var names := ParseCompact(Compact(frames, a, b)).value;
      |names| == b - a && forall i :: 0 <= i < b - a ==> names[i] == frames[a + i].name
  {
    var c := Compact(frames, a, b);
    assert c[1..|c| - 1] == Names(frames, a, b);
    SplitNamesRoundTrip(frames, a, b);
  }

  /** An exhausted cursor renders as "[]" compactly and as the bare header in detail. */
  lemma ExhaustedRender(verb: char, plus: bool, frames: seq<Frame>)
    ensures var out := Render(verb, plus, frames, |frames|, DrainEnd(frames, |frames|));
      && (verb == 's' || (verb == 'v' && !plus) ==> out == "[]")
      && (verb == 'v' && plus ==> out == StackHeader)
      && (verb != 'v' && verb != 's' ==> out == Unsupported(verb) + "[]")
  {
  }
}
