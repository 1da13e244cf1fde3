# morrisxyang/errors: stack rendering, caller info, configuration and `New`

A Dafny model of the core of the Go package `errors` (github.com/morrisxyang/errors).
The package builds errors that carry a message, an internal detail string naming the
caller, and a captured call stack. The model covers these parts:

- **Stack rendering (`stack.go`).** A `StackTrace` holds a shared, consumable cursor
  over resolved frames (`runtime.Frames`), modelled as the class `Stack.Frames`: a fixed
  frame list and a position. `Format` writes that cursor to an output (`Stack.State`) in
  three ways:
  - the compact form `[ f1 f2 ...]` for `%s` and for `%v` without `+`;
  - the detailed form `\nStack Info: ` followed by `\n<function>\n\t<file>:<line>` per
    frame for `%+v`;
  - a labelled fallback followed by the compact form for any other verb.

  `Next` follows the documented `runtime.Frames.Next` contract: `more` is true exactly
  when a further frame follows the one returned. Both loops stop on the call whose `more`
  is false, and that call's frame is not written. So from position `p` the written frames
  are `frames[p..|frames|-1]` (`Stack.Drain`), and the cursor is exhausted afterwards.
- **Caller info and capture (`tool.go`).** `callerFuncInfo` trims the function name
  after its last `.` and the path after its last `/`, then builds `name(file:line)`.
  `callers` fills a 10-slot address buffer and keeps `pcs[0:n]`.
- **Configuration (`config.go`).** `Config` is a mutable record. The package variable
  `defaultCfg` (a field of `Configuration.Store`) starts at the compiled-in defaults.
  `SetCfg` repoints it.
- **The error record (`errors.go`) and `New` (`pack.go`).**

The runtime's stack walk, symbol lookup and `runtime.Caller` are inputs, not modelled
code:
- the return addresses a walk reports (`walk`);
- a function resolving an address to a frame (`symbolize`);
- the caller frame (`caller`).

`strconv.Itoa` and `strings.LastIndex` are modelled in `Text`, each with an inverse or a
characterisation.

## Model

| member | source | states |
|---|---|---|
| Stack.Frames.Next | stack.go:29-32 | hands out the frame at the position and advances; past the end returns the zero frame; `more` holds exactly when a further frame follows |
| Stack.DrainSkipsLast | stack.go:51-55 | the frames a Next-until-`!more` loop writes from position p are `frames[p..]` without the last one, in cursor order, each once; none when p is at the end |
| Stack.FormatSlice | stack.go:49-60 | writes "[" then " " and the name of each frame drained, then "]"; leaves the shared cursor exhausted |
| Stack.FormatDetailed | stack.go:26-35 | writes the header "\nStack Info: " once, then "\n" + function and "\n\t" + file + ":" + decimal line per drained frame; leaves the cursor exhausted |
| Stack.Format | stack.go:22-45 | output is the detailed form for %+v, the compact form for %s and for %v without '+', otherwise "unsupported format: %!<verb>, use %s: " then the compact form; the cursor ends exhausted |
| Stack.RenderIsFoldOverDrain | stack.go:22-45 | what Format writes is a left-to-right fold over exactly the drained frames, per verb and flag |
| Stack.NamesAgree | stack.go:51-58 | the compact loop's text over positions a..b equals the fold over frames[a..b] |
| Stack.DetailsAgree | stack.go:28-35 | the detailed loop's text over positions a..b equals the fold over frames[a..b] |
| Stack.NamesOfSnoc | stack.go:56-57 | appending a frame appends " " + its name to the compact fold |
| Stack.DetailsOfSnoc | stack.go:33-34 | appending a frame appends its two lines to the detailed fold |
| Stack.SplitNamesRoundTrip | stack.go:56-57 | when no name contains a space, the " f1 f2 ..." text splits back into exactly the names, in order |
| Stack.CompactRoundTrip | stack.go:49-60 | when no name contains a space, the compact form parses back to the written names, in cursor order |
| Stack.ExhaustedDrainsNothing | stack.go:10-12 | once the shared cursor is exhausted, a further render drains no frame |
| Stack.ExhaustedRender | stack.go:22-60 | rendering an exhausted cursor gives "[]" (after the label for other verbs), or the bare header for %+v |
| Text.LastIndex | tool.go:26-27 | the index of the last occurrence of the character, or -1; no occurrence after it |
| Text.LastIndexAfter | tool.go:26-27 | in a + [c] + b with c not in b, the last c is at the index equal to the length of a |
| Text.Itoa | tool.go:28 | strconv.Itoa's text (also the `%d` of stack.go:34) is never empty and starts with '-' exactly for negative numbers |
| Text.NaturalShape | tool.go:28 | the decimal text of a natural is non-empty digits with no leading zero |
| Text.ItoaShape | tool.go:28 | strconv.Itoa's text is non-empty, starts with '-' exactly for negatives, and is digits after that |
| Text.NaturalRoundTrip | tool.go:28 | the digits of a natural read back as that natural |
| Text.ItoaRoundTrip | tool.go:28 | the decimal text of any int parses back to the same int |
| Tool.TrimThroughLast | tool.go:26-27 | the result is the longest sep-free suffix: a suffix without sep, preceded by sep when shorter than the input, and the whole input when sep does not occur |
| Tool.ShortName | tool.go:26 | the function name after its last '.': a '.'-free suffix of the name, preceded by '.' when shorter, the whole name when it has no '.' |
| Tool.ShortFile | tool.go:27 | the path after its last '/': a '/'-free suffix of the path, preceded by '/' when shorter, the whole path when it has no '/' |
| Tool.CallerFuncInfo | tool.go:22-29 | "shortName(shortFile:line)" for the caller frame: non-empty and ending in ')' (its full decomposition is Tool.CallerFuncInfoSplits) |
| Tool.TrimIdempotent | tool.go:26-27 | trimming an already trimmed name or path changes nothing |
| Tool.NoColonInItoa | tool.go:28 | the decimal line number never contains ':' |
| Tool.CallerFuncInfoSplits | tool.go:22-29 | the caller text ends in ')'; its last ':' separates "shortName(shortFile" from the decimal line, which parses back to the caller's line |
| Tool.CapturePCs | tool.go:13-15 | keeps min(10, n) addresses, exactly the walk's prefix, in capture order |
| Tool.Callers | tool.go:11-19 | a new cursor at position 0 over at most 10 frames, the i-th being the symbolization of the i-th captured address |
| Configuration.Store.constructor | config.go:9-12 | defaultCfg starts as a new Config with Depth 10 and ErrorConnectionFlag "\nCaused by: " |
| Configuration.Store.SetCfg | config.go:15-17 | afterwards defaultCfg is exactly c, nil included; the previous Config and c are not modified |
| Configuration.Config.constructor | config.go:4-7 | a Config holds the given Depth and ErrorConnectionFlag |
| Errors.Chain | errors.go:5-11 | the causes from an error inwards: starts at the error, each element's cause is the next one, the last wraps nothing |
| Pack.Detail | pack.go:11 | `fmt.Sprintf("%v, %v", info, msg)`: the caller info, then ", ", then the message, which ends it (so an empty message leaves it ending in ", "); the length is the sum of the parts plus 2 |
| Pack.New | pack.go:8-14 | a record with msg, code 0, no cause, detail "callerInfo, msg" and a new stack of at most 10 frames at its start |

## Left out

- Runtime stack walking and symbolization (`runtime.Callers`, `runtime.CallersFrames`,
  `runtime.Caller`, `runtime.FuncForPC`) are foreign calls. They are inputs:
  - the addresses the walk reports, with the skip of 3 already applied;
  - a total function from address to frame;
  - the caller frame.
- Tool.Callers: resolves addresses one to one. The runtime can expand an inlined call
  into several frames, and that is not modelled.
- `fmt.State` and `io.WriteString` are reduced to a flag set and a string the methods
  append to. Write errors are not modelled.
- The `%!` verb text assumes a single-character verb. `fmt`'s `%c` rendering of other
  runes is not modelled.
- Printing a nil `*StackTrace` as `<nil>` is done by `fmt`, not this code.
- Stack.StackTrace: the cursor is never null. A zero `StackTrace{}` holds a nil
  `*runtime.Frames`. `Format` on it writes its opening text ("[", the header, or the
  unsupported-verb label) and then panics when `Next` dereferences nil. `fmt` turns
  that panic into `%!s(PANIC=...)` text. None of this is modelled, so
  Stack.ExhaustedRender's "[]" covers an empty non-nil cursor only.
- The doc comment at stack.go:16-17 and 21 says `%s` lists source files and `%v` source
  files with lines. The code at stack.go:49-60 writes only function names for both, and
  the model follows the code.
- stack_test.go:117-138 expects `[` directly followed by the first name, with the last
  frame (`runtime.goexit`) listed. That matches neither the " " written before each name
  at stack.go:56 nor the documented `Next` contract, under which the last frame is not
  written. The model follows the code and the documented contract. Those tests also
  embed `runtime.Frames` by value (`&StackTrace{*stack}`, stack_test.go:80), unlike
  stack.go:10-12.
- Integer widths: Go `int` line numbers and `Config.Depth` are unbounded integers.
  `uintptr` is a 64-bit range newtype.
- `Config.Depth` is not read by any modelled code. `callers` uses its own constant 10.
- Concurrency: `SetCfg` has no lock. The model is sequential.
- Pack.New: a method, not a function, because `callers` allocates a new cursor.
- Errors.Error: errors other than this package's records are opaque text and end a
  cause chain.
- errors.go:10 comments the `stack` field out, while pack.go:12 sets it. The record here
  has an optional `stack` field so that `New` can be stated.
- The commented-out stack-reuse policy in errors.go:10 is not live code.
- API defined only in tests is not shown in the source and is not modelled:
  - `Wrap`, `Wrapf`, `WrapWithCode`, `NewWithCode`, `Newf`, `Errorf`;
  - `Cause`, `Code`, `Msg`;
  - `GetCfg`, `ResetCfg`, `cfg`, `Config.StackDepth`;
  - `Error()` and `Format` on `fundamentalError`.
- Configuration.Store.SetCfg: stores nil when given nil, since config.go:16 has no
  guard. The table in config_test.go:15-18 expects a nil argument to leave the
  configuration in place. That test targets a `cfg` variable this source does not define,
  so the model follows the code.
- Last write wins and idempotence of `SetCfg` have no separate lemma. They follow from
  its postcondition, which fixes the whole new state as `c`.
