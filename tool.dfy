/**
 * tool.go: the caller description "name(file:line)" that New puts into an
 * error's detail, and the capture of at most Depth return addresses that
 * becomes the error's stack. The runtime's stack walk and symbol lookup are
 * inputs here: the addresses a walk would report, the function that resolves
 * an address to a frame, and the caller's (function, file, line) triple.
 */
module Tool {
  import opened Wrappers
  import opened Text
  import opened Stack

  /** A program counter, Go's uintptr on a 64-bit platform. */
  newtype uintptr = x: int | 0 <= x < 0x1_0000_0000_0000_0000

  /** The fixed size of the address buffer callers fills. */
  const Depth := 10

  function Min(a: int, b: int): int {
    if a <= b then a else b
  }

  /**
   * s[strings.LastIndex(s, sep)+1:]: the longest suffix of s free of sep,
   * which is all of s when sep does not occur in it.
   */
  function TrimThroughLast(s: string, sep: char): (r: string)
    ensures sep !in r
    ensures |r| <= |s| && r == s[|s| - |r|..]
    ensures |r| < |s| ==> s[|s| - |r| - 1] == sep
    ensures sep !in s ==> r == s
  {
    s[LastIndex(s, sep) + 1..]
  }

  /** Trimming an already trimmed name or path changes nothing. */
  lemma TrimIdempotent(s: string, sep: char)
    ensures TrimThroughLast(TrimThroughLast(s, sep), sep) == TrimThroughLast(s, sep)
  {
  }

  /**
   * The function name without its package path and receiver qualifiers: the
   * part after the last '.', or all of it when there is none.
   */
  function ShortName(name: string): (r: string)
    ensures '.' !in r && |r| <= |name| && r == name[|name| - |r|..]
    ensures |r| < |name| ==> name[|name| - |r| - 1] == '.'
  {
    TrimThroughLast(name, '.')
  }

  /** The source file without its directory: the part after the last '/', or all of it. */
  function ShortFile(file: string): (r: string)
    ensures '/' !in r && |r| <= |file| && r == file[|file| - |r|..]
    ensures |r| < |file| ==> file[|file| - |r| - 1] == '/'
  {
    TrimThroughLast(file, '/')
  }

  /** callerFuncInfo for the caller frame the runtime reports: "name(file:line)". */
  function CallerFuncInfo(caller: Frame): (r: string)
    ensures |r| > 0 && r[|r| - 1] == ')'
  {
    ShortName(caller.name) + "(" + ShortFile(caller.file) + ":" + Itoa(caller.line) + ")"
  }

  lemma NoColonInItoa(i: int)
    ensures ':' !in Itoa(i)
  {
    ItoaShape(i);
    var t := Itoa(i);
    forall j | 0 <= j < |t|
      ensures t[j] != ':'
    {
      if j > 0 {
        assert t[1..][j - 1] == t[j];
      }
    }
  }

  /** In head + ":" + digits + ")" with no ':' in digits, the last ':' is the one after head. */
  lemma SplitAtLastColon(head: string, digits: string)
    requires ':' !in digits
    ensures var r := head + ":" + digits + ")";
      && LastIndex(r, ':') == |head| < |r| - 1
      && r[|r| - 1] == ')'
      && r[..|head|] == head
      && r[|head| + 1..|r| - 1] == digits
  {
    var tail := digits + ")";
    var r := head + ":" + digits + ")";
    AppendAssoc(head + ":", digits, ")");
    assert ':' !in tail by {
      forall j | 0 <= j < |tail|
        ensures tail[j] != ':'
      {
        if j < |digits| {
          assert tail[j] == digits[j];
        }
      }
    }
    LastIndexAfter(head, ':', tail);
    assert r[..|head|] == head;
    assert r[|head| + 1..|r| - 1] == digits;
  }

  /**
   * The caller description splits back into its parts: the text ends in ')',
   * its last ':' separates "shortName(shortFile" from the decimal line, and
   * that decimal reads back as the caller's line.
   */
  lemma CallerFuncInfoSplits(caller: Frame)
    ensures var r := CallerFuncInfo(caller);
      var k := LastIndex(r, ':');
      && 0 <= k < |r| - 1
      && r[|r| - 1] == ')'
      && r[..k] == ShortName(caller.name) + "(" + ShortFile(caller.file)
      && ParseInt(r[k + 1..|r| - 1]) == Some(caller.line)
  {
    var head := ShortName(caller.name) + "(" + ShortFile(caller.file);
    NoColonInItoa(caller.line);
    SplitAtLastColon(head, Itoa(caller.line));
    ItoaRoundTrip(caller.line);
  }

  /**
   * The runtime.Callers step of callers: a Depth-slot buffer filled from the
   * front with the addresses the walk reports, of which pcs[0:n] is kept.
   */
  method CapturePCs(walk: seq<uintptr>) returns (pcs: seq<uintptr>)
    ensures |pcs| == Min(Depth, |walk|)
    ensures pcs == walk[..|pcs|]
  {
    var buf := new uintptr[Depth];
    var n := 0;
    while n < buf.Length && n < |walk|
      invariant 0 <= n <= buf.Length && n <= |walk|
      invariant buf[..n] == walk[..n]
    {
      buf[n] := walk[n];
      n := n + 1;
    }
    pcs := buf[..n];
  }

  /**
   * callers: captures at most Depth addresses, innermost first, and wraps a
   * new cursor at its start over the frames they resolve to.
   */
  method Callers(walk: seq<uintptr>, symbolize: uintptr -> Frame) returns (st: StackTrace)
    ensures fresh(st.cursor) && st.cursor.Valid() && st.cursor.pos == 0
    ensures |st.cursor.frames| == Min(Depth, |walk|) <= Depth
    ensures forall i :: 0 <= i < |st.cursor.frames| ==> st.cursor.frames[i] == symbolize(walk[i])
  {
    var pcs := CapturePCs(walk);
    var frames := seq(|pcs|, i requires 0 <= i < |pcs| => symbolize(pcs[i]));
    var cursor := new Frames(frames);
    st := StackTrace(cursor);
  }
}
