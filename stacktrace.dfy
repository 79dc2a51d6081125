/** Stack-trace trimming and the stack-trace interning cache
    (debugger/stacktrace.ts). */
module Stacktrace {
  import opened Collections

  // ------------------------------------------------ JavaScript strings

  /** `sep` occurs in `s` starting at index `j`. */
  predicate OccursAt(s: string, sep: string, j: int) {
    0 <= j && j + |sep| <= |s| && s[j..j + |sep|] == sep
  }

  predicate Contains(s: string, sep: string) {
    exists j | 0 <= j <= |s| :: OccursAt(s, sep, j)
  }

  /** The first occurrence of `sep` in `s` at or after `from`. */
  function FindFrom(s: string, sep: string, from: nat): (r: Option<nat>)
    requires |sep| > 0 && from <= |s|
    ensures r.Some? ==> from <= r.value && OccursAt(s, sep, r.value)
    ensures r.Some? ==> forall j :: from <= j < r.value ==> !OccursAt(s, sep, j)
    ensures r.None? ==> forall j :: from <= j ==> !OccursAt(s, sep, j)
    decreases |s| - from
  {
    if from + |sep| > |s| then None
    else if s[from..from + |sep|] == sep then Some(from)
    else FindFrom(s, sep, from + 1)
  }

  /** `String.prototype.split` with a non-empty separator: the pieces
      between successive non-overlapping occurrences, left to right. */
  function Split(s: string, sep: string): (pieces: seq<string>)
    requires |sep| > 0
    ensures |pieces| >= 1
    decreases |s|
  {
    match FindFrom(s, sep, 0)
    case None => [s]
    case Some(i) => [s[..i]] + Split(s[i + |sep|..], sep)
  }

  /** `Array.prototype.join`. */
  function Join(xs: seq<string>, sep: string): string
    decreases |xs|
  {
    if xs == [] then ""
    else if |xs| == 1 then xs[0]
    else xs[0] + sep + Join(xs[1..], sep)
  }

  /** Joining the pieces of a split with the separator gives back the string. */
  lemma {:induction false} JoinSplit(s: string, sep: string)
    requires |sep| > 0
    ensures Join(Split(s, sep), sep) == s
    decreases |s|
  {
    match FindFrom(s, sep, 0)
    case None =>
    case Some(i) =>
      var rest := s[i + |sep|..];
      var tail := Split(rest, sep);
      JoinSplit(rest, sep);
      var pieces := [s[..i]] + tail;
      assert Split(s, sep) == pieces;
      assert |pieces| >= 2 && pieces[0] == s[..i] && pieces[1..] == tail;
      assert Join(pieces, sep) == s[..i] + sep + Join(tail, sep);
      assert s[i..i + |sep|] == sep;
      assert s == s[..i] + s[i..i + |sep|] + rest;
  }

  /** No piece of a split contains the separator. */
  lemma {:induction false} SplitPiecesAvoidSeparator(s: string, sep: string)
    requires |sep| > 0
    ensures forall k :: 0 <= k < |Split(s, sep)| ==> !Contains(Split(s, sep)[k], sep)
    decreases |s|
  {
    match FindFrom(s, sep, 0)
    case None =>
      forall j ensures !OccursAt(s, sep, j) {
        if j < 0 { } else { }
      }
    case Some(i) =>
      var rest := s[i + |sep|..];
      SplitPiecesAvoidSeparator(rest, sep);
      var head := s[..i];
      forall j | OccursAt(head, sep, j)
        ensures false
      {
        assert head[j..j + |sep|] == s[j..j + |sep|];
        assert OccursAt(s, sep, j);
      }
      var pieces := Split(s, sep);
      assert pieces == [head] + Split(rest, sep);
      forall k | 0 <= k < |pieces|
        ensures !Contains(pieces[k], sep)
      {
        if k > 0 {
          assert pieces[k] == Split(rest, sep)[k - 1];
        }
      }
  }

  /** A character absent from a string is absent from every piece of its split. */
  lemma {:induction false} SplitPiecesAvoidChar(s: string, sep: string, ch: char)
    requires |sep| > 0 && ch !in s
    ensures forall k :: 0 <= k < |Split(s, sep)| ==> ch !in Split(s, sep)[k]
    decreases |s|
  {
    match FindFrom(s, sep, 0)
    case None =>
    case Some(i) =>
      var rest := s[i + |sep|..];
      SplitPiecesAvoidChar(rest, sep, ch);
      var pieces := Split(s, sep);
      assert pieces == [s[..i]] + Split(rest, sep);
      forall k | 1 <= k < |pieces|
        ensures ch !in pieces[k]
      {
        assert pieces[k] == Split(rest, sep)[k - 1];
      }
  }

  lemma OccursAtChar(s: string, ch: char, j: int)
    ensures OccursAt(s, [ch], j) <==> 0 <= j < |s| && s[j] == ch
  {
    if 0 <= j < |s| {
      assert s[j..j + 1] == [s[j]];
    }
  }

  /** Splitting a join on a one-character separator that no part contains
      gives back the parts. */
  lemma {:induction false} SplitJoinChar(xs: seq<string>, ch: char)
    requires |xs| >= 1
    requires forall k :: 0 <= k < |xs| ==> ch !in xs[k]
    ensures Split(Join(xs, [ch]), [ch]) == xs
    decreases |xs|
  {
    var s := Join(xs, [ch]);
    var first := FindFrom(s, [ch], 0);
    if |xs| == 1 {
      if first.Some? {
        OccursAtChar(s, ch, first.value);
      }
    } else {
      var rest := Join(xs[1..], [ch]);
      var n := |xs[0]|;
      assert s == xs[0] + [ch] + rest;
      OccursAtChar(s, ch, n);
      assert first.Some?;
      if first.value < n {
        OccursAtChar(s, ch, first.value);
      }
      assert first.value == n;
      assert s[..n] == xs[0];
      assert s[n + 1..] == rest;
      SplitJoinChar(xs[1..], ch);
      assert [xs[0]] + xs[1..] == xs;
    }
  }

  // ------------------------------------------------------ getStacktrace

  /** `line.split("at ")[1]`: the text between the first and the second
      `"at "` of a line (or to its end), or `None` (`undefined`) when the
      line has no `"at "`. */
  function SecondSegment(line: string): Option<string> {
    var parts := Split(line, "at ");
    if |parts| > 1 then Some(parts[1]) else None
  }

  /** `seg` is the text of `line` between its first `"at "`, found at
      index `i`, and the next `"at "` or the end of the line. */
  predicate SegmentAfterFirstAt(line: string, i: int, seg: string) {
    && OccursAt(line, "at ", i)
    && (forall j :: 0 <= j < i ==> !OccursAt(line, "at ", j))
    && i + 3 + |seg| <= |line|
    && line[i + 3..i + 3 + |seg|] == seg
    && (i + 3 + |seg| == |line| || OccursAt(line, "at ", i + 3 + |seg|))
    && !Contains(seg, "at ")
  }

  /** When the first `"at "` is at `i`, the segment is the first piece of
      the split of the text after it. */
  lemma SegmentOfRest(line: string, i: int, seg: string)
    requires OccursAt(line, "at ", i)
    requires forall j :: 0 <= j < i ==> !OccursAt(line, "at ", j)
    requires seg == Split(line[i + 3..], "at ")[0]
    ensures SegmentAfterFirstAt(line, i, seg)
  {
    var sep := "at ";
    var rest := line[i + 3..];
    SplitPiecesAvoidSeparator(rest, sep);
    match FindFrom(rest, sep, 0)
    case None =>
      assert seg == rest;
    case Some(k) =>
      assert seg == rest[..k];
      assert line[i + 3 + k..i + 3 + k + 3] == rest[k..k + 3];
  }

  /** The segment is absent exactly when the line has no `"at "`; otherwise
      it is the text between the first and the second `"at "`. */
  lemma SecondSegmentBetween(line: string)
    ensures SecondSegment(line).None? <==> !Contains(line, "at ")
    ensures SecondSegment(line).Some? ==> exists i :: SegmentAfterFirstAt(line, i, SecondSegment(line).value)
  {
    var sep := "at ";
    match FindFrom(line, sep, 0)
    case None =>
      assert Split(line, sep) == [line];
    case Some(i) =>
      var rest := line[i + 3..];
      var parts := Split(line, sep);
      assert parts == [line[..i]] + Split(rest, sep);
      assert OccursAt(line, sep, i);
      SegmentOfRest(line, i, parts[1]);
  }

  /** `filter((line) => line)` followed by reading the kept strings: drops
      missing and empty segments and keeps the others in order. */
  function Kept(segments: seq<Option<string>>): (r: seq<string>)
    ensures |r| <= |segments|
    ensures forall f :: f in r <==> f != "" && Some(f) in segments
    decreases |segments|
  {
    if segments == [] then []
    else
      var rest := Kept(segments[1..]);
      match segments[0]
      case Some(f) => if f != "" then [f] + rest else rest
      case None => rest
  }

  /** What a single segment contributes to the kept strings. */
  function KeptOne(segment: Option<string>): seq<string> {
    if segment.Some? && segment.value != "" then [segment.value] else []
  }

  /** The filter works segment by segment, so the kept strings keep the
      segments' order and their repeats. */
  lemma {:induction false} KeptAppend(a: seq<Option<string>>, b: seq<Option<string>>)
    ensures Kept(a + b) == Kept(a) + Kept(b)
    decreases |a|
  {
    if a == [] {
      assert a + b == b;
    } else {
      assert (a + b)[1..] == a[1..] + b;
      KeptAppend(a[1..], b);
    }
  }

  /** Appending a segment appends exactly what that segment contributes. */
  lemma KeptSnoc(s: seq<Option<string>>, x: Option<string>)
    ensures Kept(s + [x]) == Kept(s) + KeptOne(x)
  {
    KeptAppend(s, [x]);
    assert [x][1..] == [];
  }

  /** `map((line) => line.split("at ")[1])`: each line's second segment. */
  function Segments(lines: seq<string>): (r: seq<Option<string>>)
    ensures |r| == |lines|
    decreases |lines|
  {
    if lines == [] then [] else [SecondSegment(lines[0])] + Segments(lines[1..])
  }

  /** `slice(k)` commutes with the per-line `map`. */
  lemma {:induction false} SegmentsDrop(lines: seq<string>, k: nat)
    requires k <= |lines|
    ensures Segments(lines)[k..] == Segments(lines[k..])
    decreases k
  {
    if k > 0 {
      SegmentsDrop(lines[1..], k - 1);
      assert lines[1..][k - 1..] == lines[k..];
      assert Segments(lines)[1..] == Segments(lines[1..]);
    }
  }

  /** The frames `getStacktrace` keeps from the captured stack text: each
      line's second `"at "` segment, without the first two lines, without
      missing or empty segments. */
  function Frames(stack: string): seq<string> {
    var segments := Segments(Split(stack, "\n"));
    Kept(if |segments| >= 2 then segments[2..] else [])
  }

  /** `getStacktrace`: `captureAvailable` says whether `Error.captureStackTrace`
      exists and `stack` is the `stack` property it produced. */
  function GetStacktrace(captureAvailable: bool, stack: Option<string>): string {
    if !captureAvailable || stack.None? || stack.value == "" then ""
    else Join(Frames(stack.value), "\n")
  }

  /** The frame one stack line yields, if any. */
  function LineFrame(line: string): seq<string> {
    KeptOne(SecondSegment(line))
  }

  /** The frames of `lines`, taken line by line: the reference reading of
      `getStacktrace`'s map, slice and filter stages. */
  function LineFrames(lines: seq<string>): (r: seq<string>)
    ensures |r| <= |lines|
    decreases |lines|
  {
    if lines == [] then [] else LineFrame(lines[0]) + LineFrames(lines[1..])
  }

  /** The frames of consecutive blocks of lines follow each other. */
  lemma {:induction false} LineFramesAppend(a: seq<string>, b: seq<string>)
    ensures LineFrames(a + b) == LineFrames(a) + LineFrames(b)
    decreases |a|
  {
    if a == [] {
      assert a + b == b;
    } else {
      assert (a + b)[1..] == a[1..] + b;
      LineFramesAppend(a[1..], b);
    }
  }

  lemma {:induction false} KeptSegments(lines: seq<string>)
    ensures Kept(Segments(lines)) == LineFrames(lines)
    decreases |lines|
  {
    if lines != [] {
      KeptSegments(lines[1..]);
      assert Segments(lines)[1..] == Segments(lines[1..]);
    }
  }

  /** The kept frames are, in order and with repeats, the frames of the
      lines after the first two. */
  lemma FramesInOrder(stack: string)
    ensures |Split(stack, "\n")| < 2 ==> Frames(stack) == []
    ensures |Split(stack, "\n")| >= 2 ==> Frames(stack) == LineFrames(Split(stack, "\n")[2..])
  {
    var lines := Split(stack, "\n");
    if |lines| >= 2 {
      SegmentsDrop(lines, 2);
      KeptSegments(lines[2..]);
    }
  }

  /** A string is one of the frames of `lines` exactly when it is the
      non-empty segment of one of them. */
  lemma {:induction false} LineFramesMembers(lines: seq<string>, f: string)
    ensures f in LineFrames(lines) <==> f != "" && exists j :: 0 <= j < |lines| && SecondSegment(lines[j]) == Some(f)
    decreases |lines|
  {
    if lines != [] {
      var rest := lines[1..];
      LineFramesMembers(rest, f);
      if exists j :: 0 <= j < |lines| && SecondSegment(lines[j]) == Some(f) {
        var j :| 0 <= j < |lines| && SecondSegment(lines[j]) == Some(f);
        if j > 0 {
          assert rest[j - 1] == lines[j];
        }
      }
      if exists j :: 0 <= j < |rest| && SecondSegment(rest[j]) == Some(f) {
        var j :| 0 <= j < |rest| && SecondSegment(rest[j]) == Some(f);
        assert lines[j + 1] == rest[j];
      }
    }
  }

  /** A kept frame is a non-empty segment of some line after the first two,
      and every such segment is kept. */
  lemma FramesFromLines(stack: string, f: string)
    ensures f in Frames(stack) <==>
      f != "" && exists j :: 2 <= j < |Split(stack, "\n")| && SecondSegment(Split(stack, "\n")[j]) == Some(f)
  {
    var lines := Split(stack, "\n");
    FramesInOrder(stack);
    if |lines| >= 2 {
      var tail := lines[2..];
      LineFramesMembers(tail, f);
      if exists m :: 0 <= m < |tail| && SecondSegment(tail[m]) == Some(f) {
        var m :| 0 <= m < |tail| && SecondSegment(tail[m]) == Some(f);
        assert lines[m + 2] == tail[m];
      }
      if exists j :: 2 <= j < |lines| && SecondSegment(lines[j]) == Some(f) {
        var j :| 2 <= j < |lines| && SecondSegment(lines[j]) == Some(f);
        assert tail[j - 2] == lines[j];
      }
    }
  }

  /** Every kept frame is non-empty and holds neither a newline nor `"at "`. */
  lemma FramesWellFormed(stack: string)
    ensures forall k :: 0 <= k < |Frames(stack)| ==>
      Frames(stack)[k] != "" && '\n' !in Frames(stack)[k] && !Contains(Frames(stack)[k], "at ")
  {
    var lines := Split(stack, "\n");
    SplitPiecesAvoidSeparator(stack, "\n");
    forall k | 0 <= k < |Frames(stack)|
      ensures Frames(stack)[k] != "" && '\n' !in Frames(stack)[k] && !Contains(Frames(stack)[k], "at ")
    {
      var f := Frames(stack)[k];
      FramesFromLines(stack, f);
      var j :| 2 <= j < |lines| && SecondSegment(lines[j]) == Some(f);
      var line := lines[j];
      assert '\n' !in line by {
        if '\n' in line {
          var m :| 0 <= m < |line| && line[m] == '\n';
          OccursAtChar(line, '\n', m);
        }
      }
      SplitPiecesAvoidChar(line, "at ", '\n');
      SplitPiecesAvoidSeparator(line, "at ");
      assert f == Split(line, "at ")[1];
    }
  }

  /** The trimmed trace is empty when no stack can be captured or no frame is
      kept; otherwise splitting it on newlines gives back exactly the kept
      frames, in order. */
  lemma StacktraceLines(captureAvailable: bool, stack: Option<string>)
    ensures (!captureAvailable || stack.None? || stack == Some("")) ==> GetStacktrace(captureAvailable, stack) == ""
    ensures captureAvailable && stack.Some? && stack.value != "" ==>
      (GetStacktrace(captureAvailable, stack) == "" <==> Frames(stack.value) == [])
    ensures captureAvailable && stack.Some? && stack.value != "" && Frames(stack.value) != [] ==>
      Split(GetStacktrace(captureAvailable, stack), "\n") == Frames(stack.value)
  {
    if captureAvailable && stack.Some? && stack.value != "" && Frames(stack.value) != [] {
      var frames := Frames(stack.value);
      FramesWellFormed(stack.value);
      SplitJoinChar(frames, '\n');
      assert "\n" == ['\n'];
    }
  }

  // ------------------------------------------ the text after the first "at "

  /** As written, a frame whose own text contains `"at "`, such as the
      method name in `    at Object.format (f.ts:1:1)`, is cut at that
      point: the segment `getStacktrace` keeps is not the frame. */
  lemma SecondSegmentCutsFrame(indent: string, frame: string)
    requires forall k :: 0 <= k < |indent| ==> indent[k] == ' '
    requires Contains(frame, "at ")
    ensures SecondSegment(indent + "at " + frame).Some?
    ensures SecondSegment(indent + "at " + frame) != Some(frame)
  {
    var line := indent + "at " + frame;
    assert OccursAt(line, "at ", |indent|) by {
      assert line[|indent|..|indent| + 3] == "at ";
    }
    SecondSegmentBetween(line);
  }

  /** The frame text evidently intended: everything after the first
      `"at "` of the line, or `None` when the line has none. */
  function AfterFirstAt(line: string): (r: Option<string>)
    ensures r.None? <==> !Contains(line, "at ")
    ensures r.Some? ==> exists i :: && OccursAt(line, "at ", i)
                                    && (forall j :: 0 <= j < i ==> !OccursAt(line, "at ", j))
                                    && r.value == line[i + 3..]
  {
    match FindFrom(line, "at ", 0)
    case None => None
    case Some(i) => Some(line[i + 3..])
  }

  /** On an indented stack line, the intended reading keeps the whole frame,
      whatever it contains. */
  lemma AfterFirstAtKeepsFrame(indent: string, frame: string)
    requires forall k :: 0 <= k < |indent| ==> indent[k] == ' '
    ensures AfterFirstAt(indent + "at " + frame) == Some(frame)
  {
    var line := indent + "at " + frame;
    var n := |indent|;
    assert OccursAt(line, "at ", n) by {
      assert line[n..n + 3] == "at ";
    }
    forall j | 0 <= j < n
      ensures !OccursAt(line, "at ", j)
    {
      assert line[j] == indent[j];
    }
    var r := AfterFirstAt(line);
    var i :| && OccursAt(line, "at ", i)
             && (forall j :: 0 <= j < i ==> !OccursAt(line, "at ", j))
             && r.value == line[i + 3..];
    assert i == n;
    assert line[n + 3..] == frame;
  }

  // --------------------------------------------------------------- cache

  /** `Array.prototype.indexOf`: the first index holding `s`, or -1. */
  function IndexOf(cache: seq<string>, s: string): (r: int)
    ensures -1 <= r < |cache|
    ensures r == -1 <==> s !in cache
    ensures r >= 0 ==> cache[r] == s && s !in cache[..r]
    decreases |cache|
  {
    if cache == [] then -1
    else if cache[0] == s then 0
    else
      var i := IndexOf(cache[1..], s);
      if i == -1 then -1
      else
        assert cache[..i + 1] == [cache[0]] + cache[1..][..i];
        i + 1
  }

  /** The cache of distinct stack traces; an id is an index into it. */
  class StacktraceCache {
    var cache: seq<string>

    /** No trace is stored twice, and the empty trace is never stored. */
    ghost predicate Valid()
      reads this
    {
      NoDuplicates(cache) && "" !in cache
    }

    constructor ()
      ensures Valid() && cache == []
    {
      cache := [];
    }

    /** `_getStacktrace`: the trace with this id, or `""` for any id that
        names no entry. */
    function GetStacktrace(id: int): (r: string)
      reads this
      ensures 0 <= id < |cache| ==> r == cache[id]
      ensures id < 0 || |cache| <= id ==> r == ""
    {
      if id < 0 then "" else if id < |cache| then cache[id] else ""
    }

    /** `_setStacktrace`: the id of `stacktrace`, adding it when it is new;
        -1 for the empty trace. Existing entries never move or change. */
    method SetStacktrace(stacktrace: string) returns (id: int)
      requires Valid()
      modifies this
      ensures Valid()
      ensures stacktrace == "" ==> id == -1 && cache == old(cache)
      ensures stacktrace != "" && stacktrace in old(cache) ==>
        cache == old(cache) && 0 <= id < |cache| && cache[id] == stacktrace
      ensures stacktrace != "" && stacktrace !in old(cache) ==>
        cache == old(cache) + [stacktrace] && id == |old(cache)|
      ensures stacktrace != "" ==> GetStacktrace(id) == stacktrace
      ensures old(cache) <= cache
    {
      if stacktrace == "" {
        return -1;
      }
      id := IndexOf(cache, stacktrace);
      if id != -1 {
        return;
      }
      cache := cache + [stacktrace];
      id := |cache| - 1;
    }

    /** The static `getStacktrace`, on the shared instance `global`. */
    static method GlobalGetStacktrace(global: StacktraceCache, id: int) returns (r: string)
      ensures r == global.GetStacktrace(id)
    {
      r := global.GetStacktrace(id);
    }

    /** The static `setStacktrace`, on the shared instance `global`. */
    static method GlobalSetStacktrace(global: StacktraceCache, stacktrace: string) returns (id: int)
      requires global.Valid()
      modifies global
      ensures global.Valid()
      ensures stacktrace == "" ==> id == -1 && global.cache == old(global.cache)
      ensures stacktrace != "" ==> global.GetStacktrace(id) == stacktrace
      ensures stacktrace != "" && stacktrace !in old(global.cache) ==> global.cache == old(global.cache) + [stacktrace]
      ensures stacktrace in old(global.cache) ==> global.cache == old(global.cache)
    {
      id := global.SetStacktrace(stacktrace);
    }
  }
}
