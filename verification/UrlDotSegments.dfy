/**
 Removal of dot segments: the code works on the list of segments, section 5.2.4 of RFC 3986 on the
 text. The two are compared on every rooted path.
 */
module UrlDotSegments {
  import opened Common

  // ---------------------------------------------------------------- splitting and joining

  function Split(path: string): (segments: seq<string>)
    ensures segments != []
  {
    if path == "" then [""]
    else if path[0] == '/' then [""] + Split(path[1..])
    else
      var rest := Split(path[1..]);
      [[path[0]] + rest[0]] + rest[1..]
  }

  function Join(segments: seq<string>): string {
    if segments == [] then ""
    else if |segments| == 1 then segments[0]
    else segments[0] + "/" + Join(segments[1..])
  }

  predicate Segment(s: string) {
    '/' !in s
  }

  predicate Segments(segments: seq<string>) {
    forall i :: 0 <= i < |segments| ==> Segment(segments[i])
  }

  lemma {:induction false} SplitGivesSegments(path: string)
    ensures Segments(Split(path))
    decreases |path|
  {
    if path != "" {
      SplitGivesSegments(path[1..]);
    }
  }

  lemma JoinCons(head: string, rest: seq<string>)
    requires rest != []
    ensures Join([head] + rest) == head + "/" + Join(rest)
  {
    assert ([head] + rest)[1..] == rest;
  }

  lemma {:induction false} JoinOfSplit(path: string)
    ensures Join(Split(path)) == path
    decreases |path|
  {
    if path != "" {
      var rest := Split(path[1..]);
      JoinOfSplit(path[1..]);
      JoinCons("", rest);
      JoinExtendHead(path[0], rest);
      hide Join;
      assert path == [path[0]] + path[1..];
      assert "" + "/" + path[1..] == "/" + path[1..];
    }
  }

  lemma JoinExtendHead(c: char, segments: seq<string>)
    requires segments != []
    ensures Join([[c] + segments[0]] + segments[1..]) == [c] + Join(segments)
  {
    var head, rest := segments[0], segments[1..];
    assert [head] + rest == segments;
    if rest == [] {
      assert [[c] + head] + rest == [[c] + head];
    } else {
      JoinCons([c] + head, rest);
      JoinCons(head, rest);
      Regroup(c, head, "/" + Join(rest));
      Regroup2(head, Join(rest));
      Regroup2([c] + head, Join(rest));
    }
  }

  lemma Regroup(c: char, a: string, b: string)
    ensures [c] + (a + b) == ([c] + a) + b
  {
  }

  lemma Regroup2(a: string, b: string)
    ensures a + "/" + b == a + ("/" + b)
  {
  }

  lemma {:induction false} SplitConcat(a: string, b: string)
    ensures Split(a + "/" + b) == Split(a) + Split(b)
    decreases |a|
  {
    var whole := a + "/" + b;
    if a == "" {
      assert whole[1..] == b;
    } else {
      assert whole[1..] == a[1..] + "/" + b;
      SplitConcat(a[1..], b);
    }
  }

  lemma {:induction false} SplitOfSegment(s: string)
    requires Segment(s)
    ensures Split(s) == [s]
    decreases |s|
  {
    if s != "" {
      assert s[0] in s;
      forall c | c in s[1..] ensures c in s {
      }
      SplitOfSegment(s[1..]);
      assert s == [s[0]] + s[1..];
    }
  }

  lemma {:induction false} SplitOfJoin(segments: seq<string>)
    requires Segments(segments) && segments != []
    ensures Split(Join(segments)) == segments
    decreases |segments|
  {
    SplitOfSegment(segments[0]);
    if |segments| > 1 {
      SplitOfJoin(segments[1..]);
      SplitConcat(segments[0], Join(segments[1..]));
    }
  }

  // ---------------------------------------------------------------- the code

  predicate DotSegment(s: string) {
    s == "." || s == ".."
  }

  /** One segment met with `output` so far. */
  function Take(output: seq<string>, segment: string): seq<string> {
    if segment == "." then output
    else if segment == ".." then
      if output != [] && output[|output| - 1] != "" then output[..|output| - 1] else output
    else output + [segment]
  }

  function Kept(segments: seq<string>, output: seq<string>): seq<string> {
    if segments == [] then output else Kept(segments[1..], Take(output, segments[0]))
  }

  predicate EndsWith(s: string, suffix: string) {
    |s| >= |suffix| && s[|s| - |suffix|..] == suffix
  }

  function Finish(path: string, joined: string): string {
    var rooted := if "/" <= path && !("/" <= joined) then "/" + joined else joined;
    var dots := EndsWith(path, "/.") || EndsWith(path, "/..");
    var closed := if dots && !EndsWith(rooted, "/") then rooted + "/" else rooted;
    if closed == "" then "/" else closed
  }

  function RemoveDotSegments(path: string): string {
    if path == "" then "/" else Finish(path, Join(Kept(Split(path), [])))
  }

  /** `_remove_dot_segments`. */
  method RemoveDots(path: string) returns (normalized: string)
    ensures normalized == RemoveDotSegments(path)
  {
    if path == "" {
      return "/";
    }
    var output: seq<string> := [];
    var segments := Split(path);
    for i := 0 to |segments|
      invariant Kept(segments[i..], output) == Kept(segments, [])
    {
      assert segments[i..][1..] == segments[i + 1..];
      var segment := segments[i];
      if segment == "." {
        continue;
      }
      if segment == ".." {
        if output != [] && output[|output| - 1] != "" {
          output := output[..|output| - 1];
        }
        continue;
      }
      output := output + [segment];
    }
    normalized := Join(output);
    if "/" <= path && !("/" <= normalized) {
      normalized := "/" + normalized;
    }
    if (EndsWith(path, "/.") || EndsWith(path, "/..")) && !EndsWith(normalized, "/") {
      normalized := normalized + "/";
    }
    if normalized == "" {
      normalized := "/";
    }
  }

  // ---------------------------------------------------------------- no dot segment is left

  predicate NoDots(segments: seq<string>) {
    forall i :: 0 <= i < |segments| ==> !DotSegment(segments[i])
  }

  lemma {:induction false} KeptHasNoDots(segments: seq<string>, output: seq<string>)
    requires Segments(segments) && Segments(output) && NoDots(output)
    ensures Segments(Kept(segments, output)) && NoDots(Kept(segments, output))
    decreases |segments|
  {
    if segments != [] {
      KeptHasNoDots(segments[1..], Take(output, segments[0]));
    }
  }

  /** The result is never empty and has no dot segment. */
  lemma ResultHasNoDots(path: string)
    ensures RemoveDotSegments(path) != "" && RemoveDotSegments("") == "/"
    ensures NoDots(Split(RemoveDotSegments(path)))
  {
    if path == "" {
      SplitConcat("", "");
    } else {
      SplitGivesSegments(path);
      var output := Kept(Split(path), []);
      KeptHasNoDots(Split(path), []);
      var joined := Join(output);
      assert NoDots(Split(joined)) by {
        if output != [] {
          SplitOfJoin(output);
        }
      }
      FinishKeepsNoDots(path, joined);
    }
  }

  lemma FinishKeepsNoDots(path: string, joined: string)
    requires NoDots(Split(joined))
    ensures NoDots(Split(Finish(path, joined)))
  {
    var rooted := if "/" <= path && !("/" <= joined) then "/" + joined else joined;
    SlashKeepsNoDots(joined);
    SlashKeepsNoDots(rooted);
    SlashKeepsNoDots("");
    assert "" + "/" == "/";
    hide Split, NoDots, EndsWith;
  }

  lemma SlashKeepsNoDots(text: string)
    ensures Split("") == [""]
    ensures NoDots(Split(text)) ==> NoDots(Split("/" + text)) && NoDots(Split(text + "/"))
    ensures NoDots(Split(""))
  {
    SplitConcat("", text);
    assert "" + "/" + text == "/" + text;
    SplitConcat(text, "");
    assert text + "/" + "" == text + "/";
  }

  lemma {:induction false} KeptOfNoDots(segments: seq<string>, output: seq<string>)
    requires NoDots(segments)
    ensures Kept(segments, output) == output + segments
    decreases |segments|
  {
    if segments != [] {
      KeptOfNoDots(segments[1..], output + [segments[0]]);
    }
  }

  lemma LastSegment(path: string, dots: string)
    requires EndsWith(path, "/" + dots) && DotSegment(dots)
    ensures Split(path)[|Split(path)| - 1] == dots
  {
    var front := path[..|path| - |dots| - 1];
    assert path == front + ("/" + dots);
    assert path == front + "/" + dots;
    SplitConcat(front, dots);
    SplitOfSegment(dots);
  }

  /** A path without dot segments is left as it is, so normalising twice is normalising once. */
  lemma RemovalIsIdempotent(path: string)
    ensures RemoveDotSegments(RemoveDotSegments(path)) == RemoveDotSegments(path)
  {
    ResultHasNoDots(path);
    NoDotsIsFixed(RemoveDotSegments(path));
  }

  lemma NoDotsIsFixed(path: string)
    requires path != "" && NoDots(Split(path))
    ensures RemoveDotSegments(path) == path
  {
    KeptOfNoDots(Split(path), []);
    assert [] + Split(path) == Split(path);
    JoinOfSplit(path);
    if EndsWith(path, "/.") {
      assert "/" + "." == "/.";
      LastSegment(path, ".");
    }
    if EndsWith(path, "/..") {
      assert "/" + ".." == "/..";
      LastSegment(path, "..");
    }
    hide Split, Kept, Join, EndsWith, DotSegment;
  }

  // ---------------------------------------------------------------- section 5.2.4 of RFC 3986

  /** The output buffer without its last segment and that segment's slash. */
  function DropLast(output: string): string {
    if output == "" then ""
    else if output[|output| - 1] == '/' then output[..|output| - 1]
    else DropLast(output[..|output| - 1])
  }

  /** Where the first segment of the input ends, a leading slash not counted. */
  function SegmentEnd(input: string, from: nat): (end: nat)
    requires from <= |input|
    ensures from <= end <= |input|
    ensures forall i :: from <= i < end ==> input[i] != '/'
    ensures end < |input| ==> input[end] == '/'
    decreases |input| - from
  {
    if from == |input| || input[from] == '/' then from else SegmentEnd(input, from + 1)
  }

  /** Steps 2A to 2E, repeated until the input buffer is empty. */
  function Rfc(input: string, output: string): string
    decreases |input|
  {
    if input == "" then output
    else if "../" <= input then Rfc(input[3..], output)
    else if "./" <= input then Rfc(input[2..], output)
    else if "/./" <= input then Rfc(input[2..], output)
    else if input == "/." then Rfc("/", output)
    else if "/../" <= input then Rfc(input[3..], DropLast(output))
    else if input == "/.." then Rfc("/", DropLast(output))
    else if input == "." || input == ".." then output
    else
      var end := SegmentEnd(input, 1);
      Rfc(input[end..], output + input[..end])
  }

  /** The same on a stack of segments, for a rooted path. */
  function RfcTake(stack: seq<string>, segment: string, last: bool): seq<string> {
    if !DotSegment(segment) then stack + [segment]
    else
      var kept := if segment == ".." && stack != [] then stack[..|stack| - 1] else stack;
      if last then kept + [""] else kept
  }

  function RfcFold(segments: seq<string>, stack: seq<string>): seq<string> {
    if segments == [] then stack else RfcFold(segments[1..], RfcTake(stack, segments[0], |segments| == 1))
  }

  function Text(stack: seq<string>): string {
    if stack == [] then "" else Text(stack[..|stack| - 1]) + "/" + stack[|stack| - 1]
  }

  lemma TextPush(stack: seq<string>, segment: string)
    ensures Text(stack + [segment]) == Text(stack) + "/" + segment
  {
    assert (stack + [segment])[..|stack|] == stack;
  }

  lemma {:induction false} DropLastSegment(front: string, segment: string)
    requires Segment(segment)
    ensures DropLast(front + "/" + segment) == front
    decreases |segment|
  {
    var whole := front + "/" + segment;
    if segment == "" {
      assert whole[..|whole| - 1] == front;
    } else {
      var shorter := segment[..|segment| - 1];
      assert segment[|segment| - 1] in segment;
      forall c | c in shorter ensures c in segment {
      }
      DropLastSegment(front, shorter);
      assert whole[..|whole| - 1] == front + "/" + shorter;
    }
  }

  lemma DropLastText(stack: seq<string>)
    requires Segments(stack)
    ensures DropLast(Text(stack)) == Text(if stack == [] then stack else stack[..|stack| - 1])
  {
    if stack != [] {
      DropLastSegment(Text(stack[..|stack| - 1]), stack[|stack| - 1]);
    }
  }

  lemma RootOnly(output: string)
    ensures Rfc("/", output) == output + "/"
  {
    assert "/"[SegmentEnd("/", 1)..] == "";
  }

  /** An ordinary segment moves from the input to the output. */
  lemma MoveSegment(segment: string, rest: string, output: string)
    requires Segment(segment) && !DotSegment(segment) && (rest == "" || rest[0] == '/')
    ensures Rfc("/" + segment + rest, output) == Rfc(rest, output + "/" + segment)
  {
    var input := "/" + segment + rest;
    var end := SegmentEnd(input, 1);
    forall i | 0 <= i < |segment| ensures input[1 + i] == segment[i] != '/' {
      assert segment[i] in segment;
    }
    assert rest != "" ==> input[1 + |segment|] == '/';
    assert end == 1 + |segment|;
    assert input[..end] == "/" + segment && input[end..] == rest;
    assert output + input[..end] == output + "/" + segment;
    NotADotInput(segment, rest);
  }

  lemma NotADotInput(segment: string, rest: string)
    requires Segment(segment) && !DotSegment(segment) && (rest == "" || rest[0] == '/')
    ensures var input := "/" + segment + rest;
            && !("../" <= input) && !("./" <= input) && !("/./" <= input) && input != "/."
            && !("/../" <= input) && input != "/.." && input != "." && input != ".."
  {
    var input := "/" + segment + rest;
    assert input[0] == '/';
    assert forall i :: 0 <= i < |segment| ==> input[i + 1] == segment[i];
    assert forall i :: 0 <= i < |segment| ==> segment[i] in segment;
    assert rest != "" ==> input[|segment| + 1] == '/';
    if |segment| == 1 {
      assert segment == [segment[0]];
    } else if |segment| == 2 {
      assert segment == [segment[0], segment[1]];
      assert input[2] == segment[1] != '/';
    } else if |segment| > 2 {
      assert input[2] == segment[1] != '/' && input[3] == segment[2] != '/';
    }
  }

  /** The text algorithm on a rooted path is the fold over its segments. */
  lemma {:induction false} RfcIsFold(segments: seq<string>, stack: seq<string>)
    requires Segments(segments) && Segments(stack) && segments != []
    ensures Rfc("/" + Join(segments), Text(stack)) == Text(RfcFold(segments, stack))
    decreases |segments|
  {
    var segment, last := segments[0], |segments| == 1;
    var rest := if last then "" else "/" + Join(segments[1..]);
    var input := "/" + segment + rest;
    assert "/" + Join(segments) == input;
    var next := RfcTake(stack, segment, last);
    TextPush(stack, segment);
    DropLastText(stack);
    var dropped := if stack == [] then stack else stack[..|stack| - 1];
    if !DotSegment(segment) {
      MoveSegment(segment, rest, Text(stack));
    } else {
      DotInput(segment, rest, Text(stack), last);
      TextPush(stack, "");
      TextPush(dropped, "");
      RootOnly(Text(stack));
      RootOnly(Text(dropped));
      assert Text(stack) + "/" + "" == Text(stack) + "/";
      assert Text(dropped) + "/" + "" == Text(dropped) + "/";
    }
    hide Rfc, DropLast, Text;
    if last {
      assert RfcFold(segments, stack) == RfcFold([], next) == next by {
        assert segments[1..] == [];
      }
      RfcOfNothing(Text(next));
    } else {
      RfcIsFold(segments[1..], next);
    }
  }

  lemma RfcOfNothing(output: string)
    ensures Rfc("", output) == output
  {
  }

  lemma DotInput(segment: string, rest: string, output: string, last: bool)
    requires DotSegment(segment) && (if last then rest == "" else rest != "" && rest[0] == '/')
    ensures var after := if segment == ".." then DropLast(output) else output;
            Rfc("/" + segment + rest, output) == Rfc(if last then "/" else rest, after)
  {
    var input := "/" + segment + rest;
    if segment == "." {
      assert input[0] == '/' && input[1] == '.';
      if last {
        assert input == "/.";
      } else {
        assert input[2] == '/';
        assert "/./" <= input && input[2..] == rest;
      }
    } else {
      assert input[0] == '/' && input[1] == '.' && input[2] == '.';
      if last {
        assert input == "/..";
      } else {
        assert input[3] == '/';
        assert "/../" <= input && input[3..] == rest;
      }
    }
  }

  // ---------------------------------------------------------------- the comparison

  /** The code's output below the root, for the segments after the leading slash. */
  function CodeFold(segments: seq<string>, stack: seq<string>): seq<string> {
    if segments == [] then stack else CodeFold(segments[1..], Take(stack, segments[0]))
  }

  lemma {:induction false} KeptIsFold(segments: seq<string>, stack: seq<string>)
    ensures Kept(segments, [""] + stack) == [""] + CodeFold(segments, stack)
    decreases |segments|
  {
    if segments != [] {
      var output, segment := [""] + stack, segments[0];
      assert output + [segment] == [""] + (stack + [segment]);
      if stack != [] {
        assert output[|output| - 1] == stack[|stack| - 1];
        assert output[..|output| - 1] == [""] + stack[..|stack| - 1];
      }
      assert Take(output, segment) == [""] + Take(stack, segment);
      KeptIsFold(segments[1..], Take(stack, segment));
    }
  }

  lemma {:induction false} JoinIsText(stack: seq<string>)
    ensures Join([""] + stack) == Text(stack)
    decreases |stack|
  {
    if stack != [] {
      var front, top := stack[..|stack| - 1], stack[|stack| - 1];
      JoinIsText(front);
      JoinPush([""] + front, top);
      assert [""] + stack == ([""] + front) + [top];
    }
  }

  lemma {:induction false} JoinPush(segments: seq<string>, segment: string)
    requires segments != []
    ensures Join(segments + [segment]) == Join(segments) + "/" + segment
    decreases |segments|
  {
    if |segments| == 1 {
      assert (segments + [segment])[1..] == [segment];
    } else {
      JoinPush(segments[1..], segment);
      assert (segments + [segment])[1..] == segments[1..] + [segment];
    }
  }

  /** Both results for a rooted path, as texts of their folds. */
  lemma RootedResults(path: string)
    requires "/" <= path
    ensures var segments := Split(path[1..]);
            && Segments(segments)
            && Split(path) == [""] + segments
            && RemoveDotSegments(path) == Finish(path, Text(CodeFold(segments, [])))
            && Rfc(path, "") == Text(RfcFold(segments, []))
  {
    var segments := Split(path[1..]);
    SplitGivesSegments(path[1..]);
    assert path == "/" + path[1..];
    KeptIsFold(segments, []);
    assert Take([], "") == [""] && [""] + [] == [""];
    assert (([""] + segments)[1..]) == segments;
    assert Kept(Split(path), []) == Kept(segments, [""]);
    JoinIsText(CodeFold(segments, []));
    JoinOfSplit(path[1..]);
    RfcIsFold(segments, []);
    assert Text([]) == "";
  }

  /** When the last segment is no dot segment, the code's result needs no repair. */
  lemma {:induction false} FoldEndsWithLast(segments: seq<string>, stack: seq<string>)
    requires segments != [] && !DotSegment(segments[|segments| - 1])
    ensures CodeFold(segments, stack) != []
    decreases |segments|
  {
    if |segments| == 1 {
      assert CodeFold(segments, stack) == CodeFold([], stack + [segments[0]]);
    } else {
      FoldEndsWithLast(segments[1..], Take(stack, segments[0]));
    }
  }

  lemma TextIsRooted(stack: seq<string>)
    requires stack != []
    ensures "/" <= Text(stack)
    decreases |stack|
  {
    if |stack| > 1 {
      TextIsRooted(stack[..|stack| - 1]);
    }
  }

  lemma PlainLastNeedsNoRepair(path: string)
    requires "/" <= path && !DotSegment(Split(path)[|Split(path)| - 1])
    ensures RemoveDotSegments(path) == Text(CodeFold(Split(path[1..]), []))
  {
    RootedResults(path);
    var segments := Split(path[1..]);
    assert Split(path)[|Split(path)| - 1] == segments[|segments| - 1];
    FoldEndsWithLast(segments, []);
    TextIsRooted(CodeFold(segments, []));
    assert "/" + "." == "/." && "/" + ".." == "/..";
    if EndsWith(path, "/.") {
      LastSegment(path, ".");
    }
    if EndsWith(path, "/..") {
      LastSegment(path, "..");
    }
    hide Split, CodeFold, Text, EndsWith;
  }

  /** A `..` meets an empty segment still on the stack: the code keeps it, the RFC removes it. */
  predicate MeetsEmpty(segments: seq<string>, stack: seq<string>) {
    if segments == [] then false
    else
      || (segments[0] == ".." && stack != [] && stack[|stack| - 1] == "")
      || MeetsEmpty(segments[1..], Take(stack, segments[0]))
  }

  predicate AllEmpty(segments: seq<string>) {
    forall i :: 0 <= i < |segments| ==> segments[i] == ""
  }

  /** After the first such meeting, at the empty segment in place `kept`: no further one, unless at the root alone. */
  predicate OnlyThatOne(segments: seq<string>, kept: nat, stack: seq<string>)
    requires kept < |stack| && stack[kept] == ""
  {
    if segments == [] then AllEmpty(stack[kept..])
    else
      && !(segments[0] == ".." && stack[|stack| - 1] == "" && |stack| > 1)
      && OnlyThatOne(segments[1..], kept, Take(stack, segments[0]))
  }

  /**
   The code keeps one empty segment that the RFC removes, and ends on empty segments only from that one on: the
   slash it then does not add makes up for the one it kept.
   */
  predicate MakesUp(segments: seq<string>, stack: seq<string>) {
    if segments == [] then false
    else if segments[0] == ".." && stack != [] && stack[|stack| - 1] == "" then
      OnlyThatOne(segments[1..], |stack| - 1, stack)
    else MakesUp(segments[1..], Take(stack, segments[0]))
  }

  /** The RFC's stack without the empty segment a final dot segment leaves. */
  function RfcPops(segments: seq<string>, stack: seq<string>): seq<string> {
    if segments == [] then stack else RfcPops(segments[1..], RfcTake(stack, segments[0], false))
  }

  lemma {:induction false} FoldIsPops(segments: seq<string>, stack: seq<string>)
    requires segments != []
    ensures RfcFold(segments, stack)
            == RfcPops(segments, stack) + (if DotSegment(segments[|segments| - 1]) then [""] else [])
    decreases |segments|
  {
    if |segments| == 1 {
      assert segments[1..] == [];
    } else {
      FoldIsPops(segments[1..], RfcTake(stack, segments[0], false));
    }
  }

  lemma {:induction false} PopsAgree(segments: seq<string>, stack: seq<string>)
    requires !MeetsEmpty(segments, stack)
    ensures RfcPops(segments, stack) == CodeFold(segments, stack)
    decreases |segments|
  {
    if segments != [] {
      PopsAgree(segments[1..], Take(stack, segments[0]));
    }
  }

  /** Two empty segments behind, the RFC's stack never catches up. */
  lemma {:induction false} StaysBehind(segments: seq<string>, kept: nat, code: seq<string>, rfc: seq<string>)
    requires 2 <= kept <= |code| && code[kept - 1] == "" && |rfc| + 2 <= |code|
    ensures |RfcPops(segments, rfc)| + 2 <= |CodeFold(segments, code)|
    decreases |segments|
  {
    if segments != [] {
      StaysBehind(segments[1..], kept, Take(code, segments[0]), RfcTake(rfc, segments[0], false));
    }
  }

  /** The stack without the segment in place `at`. */
  function Without(stack: seq<string>, at: nat): seq<string>
    requires at < |stack|
  {
    stack[..at] + stack[at + 1..]
  }

  lemma {:induction false} OneBehind(segments: seq<string>, kept: nat, code: seq<string>)
    requires kept < |code| && code[kept] == ""
    ensures |RfcPops(segments, Without(code, kept))| < |CodeFold(segments, code)|
    ensures CodeFold(segments, code) == RfcPops(segments, Without(code, kept)) + [""]
            <==> OnlyThatOne(segments, kept, code)
    decreases |segments|
  {
    var rfc := Without(code, kept);
    if segments == [] {
      ShiftedIsEmpty(code, kept);
    } else {
      var segment, top := segments[0], code[|code| - 1];
      var next := Take(code, segment);
      if segment == ".." && top == "" && |code| > 1 {
        StaysBehind(segments[1..], |code|, next, RfcTake(rfc, segment, false));
      } else {
        assert RfcTake(rfc, segment, false) == Without(next, kept);
        OneBehind(segments[1..], kept, next);
      }
    }
  }

  lemma ShiftedIsEmpty(code: seq<string>, kept: nat)
    requires kept < |code| && code[kept] == ""
    ensures code == Without(code, kept) + [""] <==> AllEmpty(code[kept..])
  {
    var shifted := Without(code, kept) + [""];
    if AllEmpty(code[kept..]) {
      assert forall i :: kept <= i < |code| ==> code[i] == code[kept..][i - kept];
      assert code == shifted;
    }
    for i := kept to |code|
      invariant code == shifted ==> forall j :: kept <= j < i ==> code[j] == ""
      invariant code == shifted && i < |code| ==> code[i] == ""
    {
      assert i + 1 < |code| ==> shifted[i] == code[i + 1];
    }
  }

  lemma {:induction false} PopsPart(segments: seq<string>, stack: seq<string>)
    requires MeetsEmpty(segments, stack)
    ensures |RfcPops(segments, stack)| < |CodeFold(segments, stack)|
    ensures CodeFold(segments, stack) == RfcPops(segments, stack) + [""] <==> MakesUp(segments, stack)
    decreases |segments|
  {
    if segments[0] == ".." && stack != [] && stack[|stack| - 1] == "" {
      assert RfcTake(stack, segments[0], false) == Without(stack, |stack| - 1);
      OneBehind(segments[1..], |stack| - 1, stack);
    } else {
      assert RfcTake(stack, segments[0], false) == Take(stack, segments[0]);
      PopsPart(segments[1..], Take(stack, segments[0]));
    }
  }

  /** After a final dot segment the code closes the path with a slash, unless it ends in one already. */
  function Closed(stack: seq<string>): seq<string> {
    if stack != [] && stack[|stack| - 1] == "" then stack else stack + [""]
  }

  /** The code's result for a rooted path, from the segments after the leading slash. */
  function CodeStack(segments: seq<string>): seq<string>
    requires segments != []
  {
    var stack := CodeFold(segments, []);
    if DotSegment(segments[|segments| - 1]) then Closed(stack) else stack
  }

  /**
   When the code follows section 5.2.4, told from the segments after the leading slash. In front of a
   plain last segment no `..` may meet an empty segment. After a final dot segment the rest must not end in an
   empty segment, or that segment must make up for the one kept.
   */
  predicate FollowsRfc(segments: seq<string>)
    requires segments != []
  {
    var stack := CodeFold(segments, []);
    if !DotSegment(segments[|segments| - 1]) then !MeetsEmpty(segments, [])
    else if !MeetsEmpty(segments, []) then stack == [] || stack[|stack| - 1] != ""
    else MakesUp(segments, [])
  }

  lemma FoldsAgreeExactly(segments: seq<string>)
    requires segments != []
    ensures CodeStack(segments) == RfcFold(segments, []) <==> FollowsRfc(segments)
  {
    FoldIsPops(segments, []);
    var stack, pops := CodeFold(segments, []), RfcPops(segments, []);
    if MeetsEmpty(segments, []) {
      PopsPart(segments, []);
      assert |stack + [""]| != |pops + [""]|;
    } else {
      PopsAgree(segments, []);
    }
  }

  lemma {:induction false} FoldsAreSegments(segments: seq<string>, stack: seq<string>)
    requires Segments(segments) && Segments(stack)
    ensures Segments(CodeFold(segments, stack)) && Segments(RfcFold(segments, stack))
    decreases |segments|
  {
    if segments != [] {
      FoldsAreSegments(segments[1..], Take(stack, segments[0]));
      FoldsAreSegments(segments[1..], RfcTake(stack, segments[0], |segments| == 1));
    }
  }

  lemma TextsDiffer(left: seq<string>, right: seq<string>)
    requires Segments(left) && Segments(right)
    ensures Text(left) == Text(right) <==> left == right
  {
    JoinIsText(left);
    JoinIsText(right);
    SplitOfJoin([""] + left);
    SplitOfJoin([""] + right);
    assert ([""] + left)[1..] == left && ([""] + right)[1..] == right;
  }

  lemma CodeText(path: string)
    requires "/" <= path
    ensures RemoveDotSegments(path) == Text(CodeStack(Split(path[1..]))) && Segments(CodeStack(Split(path[1..])))
  {
    RootedResults(path);
    var segments := Split(path[1..]);
    var stack := CodeFold(segments, []);
    FoldsAreSegments(segments, []);
    assert Segments(Closed(stack));
    hide Split, CodeFold, RfcFold, Text, EndsWith, Finish, RemoveDotSegments, Rfc, Segments, Segment, Closed;
    if DotSegment(segments[|segments| - 1]) {
      EndsInDots(path);
      ClosedText(path, stack);
    } else {
      assert Split(path)[|Split(path)| - 1] == segments[|segments| - 1];
      PlainLastNeedsNoRepair(path);
    }
  }

  /** Exactly when the code follows section 5.2.4 of RFC 3986, on every rooted path. */
  lemma AgreesWithRfcExactly(path: string)
    requires "/" <= path
    ensures RemoveDotSegments(path) == Rfc(path, "") <==> FollowsRfc(Split(path[1..]))
  {
    CodeText(path);
    RootedResults(path);
    var segments := Split(path[1..]);
    FoldsAreSegments(segments, []);
    FoldsAgreeExactly(segments);
    hide *;
    TextsDiffer(CodeStack(segments), RfcFold(segments, []));
  }

  lemma JoinEndsInLast(segments: seq<string>)
    requires segments != []
    ensures EndsWith("/" + Join(segments), "/" + segments[|segments| - 1])
  {
    var front, last := segments[..|segments| - 1], segments[|segments| - 1];
    assert front + [last] == segments;
    EndsWithSuffix("", "/" + last);
    if front != [] {
      JoinPush(front, last);
      hide EndsWith, Join;
      EndsWithSuffix("/" + Join(front), "/" + last);
      Regroup3(Join(front), last);
    }
  }

  lemma Regroup3(a: string, b: string)
    ensures "/" + (a + "/" + b) == ("/" + a) + ("/" + b)
  {
  }

  lemma EndsInLast(path: string, last: string)
    requires "/" <= path && last == Split(path[1..])[|Split(path[1..])| - 1]
    ensures EndsWith(path, "/" + last)
  {
    JoinOfSplit(path[1..]);
    JoinEndsInLast(Split(path[1..]));
    hide *;
    assert path == "/" + path[1..];
  }

  lemma EndsInDots(path: string)
    requires "/" <= path && DotSegment(Split(path[1..])[|Split(path[1..])| - 1])
    ensures EndsWith(path, "/.") || EndsWith(path, "/..")
  {
    hide Split, EndsWith;
    var last := Split(path[1..])[|Split(path[1..])| - 1];
    EndsInLast(path, last);
    assert "/" + "." == "/." && "/" + ".." == "/..";
  }

  lemma EndsWithSuffix(front: string, suffix: string)
    ensures EndsWith(front + suffix, suffix)
  {
  }

  lemma ClosedText(path: string, stack: seq<string>)
    requires "/" <= path && (EndsWith(path, "/.") || EndsWith(path, "/..")) && Segments(stack)
    ensures Finish(path, Text(stack)) == Text(Closed(stack))
  {
    TextPush(stack, "");
    var text := Text(stack);
    assert text + "/" + "" == text + "/";
    EmptyText();
    if stack != [] {
      TextIsRooted(stack);
      TopEndsText(stack);
    }
    hide Text, Segments, Split, EndsWith;
    FinishText(path, text);
  }

  lemma FinishText(path: string, text: string)
    requires "/" <= path && (EndsWith(path, "/.") || EndsWith(path, "/.."))
    ensures "/" <= text ==> Finish(path, text) == if EndsWith(text, "/") then text else text + "/"
    ensures text == "" ==> Finish(path, text) == "/"
  {
    if text == "" {
      assert "/" + text == "/";
    }
  }

  lemma EmptyText()
    ensures Text([]) == ""
  {
  }

  lemma TopEndsText(stack: seq<string>)
    requires stack != [] && Segments(stack)
    ensures EndsWith(Text(stack), "/") <==> stack[|stack| - 1] == ""
  {
    SegmentEndsText(Text(stack[..|stack| - 1]), stack[|stack| - 1]);
    hide EndsWith;
  }

  lemma SegmentEndsText(front: string, segment: string)
    requires Segment(segment)
    ensures EndsWith(front + "/" + segment, "/") <==> segment == ""
  {
    var text := front + "/" + segment;
    if segment != "" {
      assert segment[|segment| - 1] in segment;
      assert text[|text| - 1] == segment[|segment| - 1];
    }
  }

  /** No segment but possibly the last is empty. */
  predicate NoEmptyInterior(segments: seq<string>) {
    forall i :: 0 <= i < |segments| - 1 ==> segments[i] != ""
  }

  predicate NonEmptyAll(stack: seq<string>) {
    forall i :: 0 <= i < |stack| ==> stack[i] != ""
  }

  lemma {:induction false} NoEmptyToMeet(segments: seq<string>, stack: seq<string>)
    requires NoEmptyInterior(segments) && NonEmptyAll(stack)
    ensures !MeetsEmpty(segments, stack)
    ensures segments != [] && segments[|segments| - 1] != "" ==> NonEmptyAll(CodeFold(segments, stack))
    decreases |segments|
  {
    if |segments| == 1 {
      assert segments[1..] == [];
    } else if segments != [] {
      NoEmptyToMeet(segments[1..], Take(stack, segments[0]));
    }
  }

  /** On every rooted path without empty interior segments, whatever it ends in, the two agree. */
  lemma AgreesWithoutEmptySegments(path: string)
    requires "/" <= path && NoEmptyInterior(Split(path[1..]))
    ensures RemoveDotSegments(path) == Rfc(path, "")
  {
    NoEmptyToMeet(Split(path[1..]), []);
    AgreesWithRfcExactly(path);
  }

  /**
   Where the two differ: an empty segment kept under `..`, and one in front of a final `.`. In the third path
   the one makes up for the other.
   */
  lemma DisagreesOnEmptySegments()
    ensures RemoveDotSegments("/a//../b") != Rfc("/a//../b", "")
    ensures RemoveDotSegments("/a//.") != Rfc("/a//.", "")
    ensures RemoveDotSegments("/a//..") == Rfc("/a//..", "")
  {
    Splits();
    FoldTwo(["..", "b"]);
    FoldTwo(["."]);
    FoldTwo([".."]);
    hide Split, RemoveDotSegments, Rfc;
    AgreesWithRfcExactly("/a//../b");
    AgreesWithRfcExactly("/a//.");
    AgreesWithRfcExactly("/a//..");
  }

  lemma Splits()
    ensures Split("/a//../b"[1..]) == ["a", ""] + ["..", "b"]
    ensures Split("/a//."[1..]) == ["a", ""] + ["."]
    ensures Split("/a//.."[1..]) == ["a", ""] + [".."]
  {
    hide Split;
    SplitOfSegment("b");
    SplitOne("..", "b");
    SplitOfSegment(".");
    SplitOfSegment("..");
    assert ".." + "/" + "b" == "../b";
    SplitTwo("../b");
    SplitTwo(".");
    SplitTwo("..");
    assert "/a//../b"[1..] == "a//" + "../b" && "/a//."[1..] == "a//" + "." && "/a//.."[1..] == "a//" + "..";
  }

  lemma SplitTwo(rest: string)
    ensures Split("a//" + rest) == ["a", ""] + Split(rest)
  {
    SplitOne("", rest);
    SplitOne("a", "/" + rest);
    assert "a" + "/" + ("/" + rest) == "a//" + rest && "" + "/" + rest == "/" + rest;
  }

  lemma SplitOne(segment: string, rest: string)
    requires Segment(segment)
    ensures Split(segment + "/" + rest) == [segment] + Split(rest)
  {
    SplitOfSegment(segment);
    SplitConcat(segment, rest);
  }

  lemma FoldTwo(rest: seq<string>)
    ensures CodeFold(["a", ""] + rest, []) == CodeFold(rest, ["a", ""])
    ensures MeetsEmpty(["a", ""] + rest, []) == MeetsEmpty(rest, ["a", ""])
    ensures MakesUp(["a", ""] + rest, []) == MakesUp(rest, ["a", ""])
  {
    assert (["a", ""] + rest)[1..] == [""] + rest;
    assert ([""] + rest)[1..] == rest;
    assert [] + ["a"] == ["a"] && ["a"] + [""] == ["a", ""];
  }
}
