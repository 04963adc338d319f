/** `--fix-tenant-headers`: add the tenant header reference to every operation that needs it and lacks it. */
module TenantHeaderFix {
  import opened Common
  import opened SwaggerLines

  const PARAMETERS := "      parameters:"
  const REFERENCE := "      - $ref: " + "'#/components/parameters/TenantIdHeader'"
  const COMPONENTS := "components:"

  /** The operations that read the tenant header, those that already document it, the line that opens a parameter
    * list, and the line that refers to the header. */
  datatype Headers = Headers(expected: set<string>, documented: set<string>, parameters: string, reference: string) {
    predicate Needs(key: Option<string>) {
      key.Some? && key.value in expected && key.value !in documented
    }
  }

  // ---- Operations and their blocks

  /** A line that ends the block of an operation. */
  predicate IsStop(line: string) {
    PathOf(line).Some? || VerbOf(line).Some? || line == COMPONENTS
  }

  function RouteAfter(route: string, line: string): string {
    match PathOf(line) case Some(found) => found case None => route
  }

  /** The operation whose method line this is. */
  function OperationAt(line: string, route: string): Option<string> {
    match VerbOf(line) case Some(verb) => Some(Key(verb, RouteAfter(route, line))) case None => None
  }

  /** What the scan sees in a line: whether it ends a block, and the operation that it starts. */
  datatype Mark = Mark(stop: bool, key: Option<string>)

  function Marks(lines: seq<string>, route: string): (marks: seq<Mark>)
    ensures |marks| == |lines|
  {
    if lines == [] then []
    else [Mark(IsStop(lines[0]), OperationAt(lines[0], route))] + Marks(lines[1..], RouteAfter(route, lines[0]))
  }

  /** How many lines come before the first that ends a block. */
  function Extent(marks: seq<Mark>): (n: nat)
    ensures n <= |marks|
  {
    if marks == [] || marks[0].stop then 0 else 1 + Extent(marks[1..])
  }

  /** A method line with the block below it, or a line outside every such block. */
  datatype Segment = Segment(key: Option<string>, head: string, body: seq<string>)

  function Segments(lines: seq<string>, marks: seq<Mark>): seq<Segment>
    requires |lines| == |marks|
    decreases |lines|
  {
    if lines == [] then []
    else
      var n := if marks[0].key.Some? then Extent(marks[1..]) else 0;
      [Segment(marks[0].key, lines[0], lines[1..][..n])] + Segments(lines[1..][n..], marks[1..][n..])
  }

  function SegmentsOf(lines: seq<string>): seq<Segment> {
    Segments(lines, Marks(lines, ""))
  }

  function Join(segments: seq<Segment>): seq<string> {
    if segments == [] then [] else ([segments[0].head] + segments[0].body) + Join(segments[1..])
  }

  /** The position of the first such line; |body| if there is none. */
  function FirstAt(body: seq<string>, text: string): (n: nat)
    ensures n <= |body|
  {
    if body == [] || body[0] == text then 0 else 1 + FirstAt(body[1..], text)
  }

  /** A block with the reference added: first in its parameter list, which is opened if there is none. */
  function Referenced(body: seq<string>, headers: Headers): seq<string> {
    var p := FirstAt(body, headers.parameters);
    if p < |body| then body[..p + 1] + [headers.reference] + body[p + 1..]
    else [headers.parameters, headers.reference] + body
  }

  function Fixed(segment: Segment, headers: Headers): Segment {
    if headers.Needs(segment.key) then segment.(body := Referenced(segment.body, headers)) else segment
  }

  function AllFixed(segments: seq<Segment>, headers: Headers): seq<Segment> {
    if segments == [] then [] else [Fixed(segments[0], headers)] + AllFixed(segments[1..], headers)
  }

  /** The file after the fix: every operation that needs the reference has it added to its block. */
  function HeadersFixed(lines: seq<string>, headers: Headers): seq<string> {
    Join(AllFixed(SegmentsOf(lines), headers))
  }

  // ---- The splices

  datatype Span = Span(start: nat, end: nat)

  predicate SpansWithin(spans: seq<Span>, n: nat) {
    forall i | 0 <= i < |spans| :: spans[i].start < spans[i].end <= n
  }

  /** The blocks to fix, for segments whose first line has index `base`. */
  function Spans(segments: seq<Segment>, headers: Headers, base: nat): seq<Span> {
    if segments == [] then []
    else
      var end := base + 1 + |segments[0].body|;
      var rest := Spans(segments[1..], headers, end);
      if headers.Needs(segments[0].key) then [Span(base, end)] + rest else rest
  }

  /** One splice: the reference goes into the block that starts after `span.start` and ends before `span.end`. */
  function Spliced(lines: seq<string>, span: Span, headers: Headers): (r: seq<string>)
    ensures |r| >= |lines|
  {
    if span.start < span.end <= |lines| then Replaced(lines, span, Referenced(lines[span.start + 1..span.end], headers))
    else lines
  }

  /** The lines with the block after `span.start` replaced. */
  function Replaced<T>(lines: seq<T>, span: Span, block: seq<T>): (r: seq<T>)
    requires span.start < span.end <= |lines|
    ensures |r| == |lines| + |block| - (span.end - span.start - 1)
  {
    lines[..span.start + 1] + block + lines[span.end..]
  }

  /** All splices, the last span first. */
  function SplicedAll(lines: seq<string>, spans: seq<Span>, headers: Headers): (r: seq<string>)
    ensures |r| >= |lines|
  {
    if spans == [] then lines else Spliced(SplicedAll(lines, spans[1..], headers), spans[0], headers)
  }

  lemma Pieces<T>(pre: seq<T>, body: seq<T>, post: seq<T>)
    ensures var all := pre + (body + post);
            all[..|pre|] == pre && all[|pre|..|pre| + |body|] == body && all[|pre| + |body|..] == post
  {
  }

  lemma ReplaceBlock<T>(pre: seq<T>, line: T, body: seq<T>, block: seq<T>, post: seq<T>)
    ensures var lines, span := (pre + [line]) + (body + post), Span(|pre|, |pre| + 1 + |body|);
            && lines[span.start + 1..span.end] == body
            && Replaced(lines, span, block) == pre + (([line] + block) + post)
  {
    Pieces(pre + [line], body, post);
    Regroup(pre, [line], block);
    Regroup(pre, [line] + block, post);
  }

  lemma SplicedCons(lines: seq<string>, span: Span, tail: seq<Span>, headers: Headers)
    ensures SplicedAll(lines, [span] + tail, headers) == Spliced(SplicedAll(lines, tail, headers), span, headers)
  {
    assert ([span] + tail)[1..] == tail;
  }

  lemma SpliceOne(whole: seq<string>, tail: seq<Span>, pre: seq<string>, line: string, body: seq<string>,
                  post: seq<string>,
                  headers: Headers)
    requires SplicedAll(whole, tail, headers) == pre + (([line] + body) + post)
    ensures var spans := [Span(|pre|, |pre| + 1 + |body|)] + tail;
            SplicedAll(whole, spans, headers) == pre + (([line] + Referenced(body, headers)) + post)
  {
    assert pre + (([line] + body) + post) == (pre + [line]) + (body + post);
    SplicedCons(whole, Span(|pre|, |pre| + 1 + |body|), tail, headers);
    ReplaceBlock(pre, line, body, Referenced(body, headers), post);
  }

  lemma SpliceStep(whole: seq<string>, tail: seq<Span>, pre: seq<string>, segment: Segment, post: seq<string>,
                   headers: Headers)
    requires SplicedAll(whole, tail, headers) == (pre + ([segment.head] + segment.body)) + post
    ensures var fixed := Fixed(segment, headers);
            var spans := if headers.Needs(segment.key) then [Span(|pre|, |pre| + 1 + |segment.body|)] + tail else tail;
            SplicedAll(whole, spans, headers) == pre + (([fixed.head] + fixed.body) + post)
  {
    Regroup(pre, [segment.head] + segment.body, post);
    if headers.Needs(segment.key) {
      SpliceOne(whole, tail, pre, segment.head, segment.body, post, headers);
    }
  }

  /** Splicing the spans from the last to the first fixes every segment. */
  lemma {:induction false} SplicesFix(whole: seq<string>, pre: seq<string>, segments: seq<Segment>, headers: Headers)
    requires whole == pre + Join(segments)
    ensures SplicedAll(whole, Spans(segments, headers, |pre|), headers) == pre + Join(AllFixed(segments, headers))
    decreases |segments|
  {
    if segments != [] {
      var own, rest := [segments[0].head] + segments[0].body, segments[1..];
      Regroup(pre, own, Join(rest));
      SplicesFix(whole, pre + own, rest, headers);
      JoinFixed(segments, headers);
      SpliceStep(whole, Spans(rest, headers, |pre + own|), pre, segments[0], Join(AllFixed(rest, headers)), headers);
    }
  }

  lemma JoinFixed(segments: seq<Segment>, headers: Headers)
    requires segments != []
    ensures var fixed := Fixed(segments[0], headers);
            Join(AllFixed(segments, headers)) == ([fixed.head] + fixed.body) + Join(AllFixed(segments[1..], headers))
  {
    assert AllFixed(segments, headers)[1..] == AllFixed(segments[1..], headers);
  }

  // ---- Segments and lines

  lemma {:induction false} JoinSegments(lines: seq<string>, marks: seq<Mark>)
    requires |lines| == |marks|
    ensures Join(Segments(lines, marks)) == lines
    decreases |lines|
  {
    if lines != [] {
      var n := if marks[0].key.Some? then Extent(marks[1..]) else 0;
      JoinSegments(lines[1..][n..], marks[1..][n..]);
      JoinCons(Segment(marks[0].key, lines[0], lines[1..][..n]), Segments(lines[1..][n..], marks[1..][n..]));
      assert lines == [lines[0]] + (lines[1..][..n] + lines[1..][n..]);
    }
  }

  lemma JoinCons(segment: Segment, rest: seq<Segment>)
    ensures Join([segment] + rest) == [segment.head] + (segment.body + Join(rest))
  {
    assert ([segment] + rest)[1..] == rest;
  }

  /** Only a line that ends blocks can start one. */
  predicate Consistent(marks: seq<Mark>) {
    forall i | 0 <= i < |marks| :: marks[i].key.Some? ==> marks[i].stop
  }

  /** Stepping through a block finds nothing to fix in it. */
  lemma {:induction false} SpansSkip(lines: seq<string>, marks: seq<Mark>, headers: Headers, base: nat)
    requires |lines| == |marks| && Consistent(marks)
    ensures var n := Extent(marks);
            Spans(Segments(lines, marks), headers, base) == Spans(Segments(lines[n..], marks[n..]), headers, base + n)
  {
    if lines == [] || marks[0].stop {
      assert lines[0..] == lines && marks[0..] == marks;
    } else {
      var n := Extent(marks[1..]);
      SpansSkip(lines[1..], marks[1..], headers, base + 1);
      assert lines[1..][n..] == lines[n + 1..] && marks[1..][n..] == marks[n + 1..];
      PlainLine(lines, marks, headers, base);
    }
  }

  lemma PlainLine(lines: seq<string>, marks: seq<Mark>, headers: Headers, base: nat)
    requires lines != [] && |lines| == |marks| && marks[0].key.None?
    ensures Spans(Segments(lines, marks), headers, base) == Spans(Segments(lines[1..], marks[1..]), headers, base + 1)
  {
    assert lines[1..][..0] == [] && lines[1..][0..] == lines[1..] && marks[1..][0..] == marks[1..];
    SpansCons(Segment(None, lines[0], []), Segments(lines[1..], marks[1..]), headers, base);
  }

  lemma SpansCons(segment: Segment, rest: seq<Segment>, headers: Headers, base: nat)
    ensures var end := base + 1 + |segment.body|;
            Spans([segment] + rest, headers, base)
            == if headers.Needs(segment.key) then [Span(base, end)] + Spans(rest, headers, end)
               else Spans(rest, headers, end)
  {
    assert ([segment] + rest)[1..] == rest;
  }

  /** A method line, seen from the scan that goes on with the next line. */
  lemma MethodLine(lines: seq<string>, marks: seq<Mark>, headers: Headers, base: nat)
    requires lines != [] && |lines| == |marks| && marks[0].key.Some? && Consistent(marks)
    ensures var tail := Spans(Segments(lines[1..], marks[1..]), headers, base + 1);
            Spans(Segments(lines, marks), headers, base)
            == if headers.Needs(marks[0].key) then [Span(base, base + 1 + Extent(marks[1..]))] + tail else tail
  {
    var n := Extent(marks[1..]);
    SpansSkip(lines[1..], marks[1..], headers, base + 1);
    SpansCons(Segment(marks[0].key, lines[0], lines[1..][..n]), Segments(lines[1..][n..], marks[1..][n..]),
              headers, base);
  }

  lemma {:induction false} SpansFit(segments: seq<Segment>, headers: Headers, base: nat)
    ensures SpansWithin(Spans(segments, headers, base), base + |Join(segments)|)
  {
    if segments != [] {
      SpansFit(segments[1..], headers, base + 1 + |segments[0].body|);
    }
  }

  // ---- The two loops

  method FindOperations(lines: seq<string>, headers: Headers, ghost marks: seq<Mark>)
    returns (operationsToFix: seq<Span>)
    requires |lines| == |marks| && Marked(lines, marks, "", 0) && Consistent(marks)
    ensures operationsToFix == Spans(Segments(lines, marks), headers, 0)
  {
    operationsToFix := [];
    var route := "";
    ghost var goal := Spans(Segments(lines, marks), headers, 0);
    assert lines[0..] == lines && marks[0..] == marks && [] + goal == goal;
    for index := 0 to |lines|
      invariant Marked(lines, marks, route, index)
      invariant Finding(operationsToFix, lines[index..], marks[index..], headers, index, goal)
    {
      FindStep(operationsToFix, lines, marks, headers, index, goal);
      operationsToFix, route := ScanLine(lines, index, route, headers, operationsToFix, marks);
    }
    NothingLeft(operationsToFix, lines, marks, headers, goal);
  }

  method ScanLine(lines: seq<string>, index: nat, route: string, headers: Headers, found: seq<Span>,
                  ghost marks: seq<Mark>)
    returns (operationsToFix: seq<Span>, next: string)
    requires index < |lines| == |marks| && Marked(lines, marks, route, index)
    ensures Marked(lines, marks, next, index + 1) && operationsToFix == Found(found, marks, headers, index)
  {
    MarkAt(lines, marks, route, index);
    operationsToFix, next := found, RouteAfter(route, lines[index]);
    if headers.Needs(OperationAt(lines[index], route)) {
      var end := FindEnd(lines, index + 1, marks, next);
      operationsToFix := operationsToFix + [Span(index, end)];
    }
  }

  lemma NothingLeft(found: seq<Span>, lines: seq<string>, marks: seq<Mark>, headers: Headers, goal: seq<Span>)
    requires |lines| == |marks| && Finding(found, lines[|lines|..], marks[|lines|..], headers, |lines|, goal)
    ensures found == goal
  {
    assert found + [] == found;
  }

  /** The marks from an index on are those of a scan that gets there with this route. */
  ghost predicate Marked(lines: seq<string>, marks: seq<Mark>, route: string, index: nat) {
    index <= |lines| == |marks| && Marks(lines[index..], route) == marks[index..]
  }

  lemma MarkAt(lines: seq<string>, marks: seq<Mark>, route: string, index: nat)
    requires index < |lines| && Marked(lines, marks, route, index)
    ensures marks[index].stop == IsStop(lines[index]) && marks[index].key == OperationAt(lines[index], route)
    ensures Marked(lines, marks, RouteAfter(route, lines[index]), index + 1)
  {
    assert lines[index..][0] == lines[index] && lines[index..][1..] == lines[index + 1..];
    assert marks[index..][0] == marks[index] && marks[index..][1..] == marks[index + 1..];
  }

  lemma {:induction false} MarksAreConsistent(lines: seq<string>, route: string)
    ensures Consistent(Marks(lines, route))
  {
    if lines != [] {
      MarksAreConsistent(lines[1..], RouteAfter(route, lines[0]));
    }
  }

  method FindEnd(lines: seq<string>, start: nat, ghost marks: seq<Mark>, ghost route: string) returns (end: nat)
    requires Marked(lines, marks, route, start)
    ensures end == start + Extent(marks[start..])
  {
    end := start;
    ghost var at := route;
    while end < |lines| && !IsStop(lines[end])
      invariant start <= end <= |lines| && Marked(lines, marks, at, end)
      invariant end + Extent(marks[end..]) == start + Extent(marks[start..])
    {
      MarkAt(lines, marks, at, end);
      assert marks[end..][1..] == marks[end + 1..];
      at := RouteAfter(at, lines[end]);
      end := end + 1;
    }
    if end < |lines| {
      MarkAt(lines, marks, at, end);
    }
  }

  /** What the scan has found, followed by what it will find below, is all there is to find. */
  ghost predicate Finding(found: seq<Span>, left: seq<string>, marks: seq<Mark>, headers: Headers, base: nat,
                          goal: seq<Span>) {
    |left| == |marks| && found + Spans(Segments(left, marks), headers, base) == goal
  }

  lemma FindStep(found: seq<Span>, lines: seq<string>, marks: seq<Mark>, headers: Headers, index: nat, goal: seq<Span>)
    requires index < |lines| == |marks| && Consistent(marks)
    requires Finding(found, lines[index..], marks[index..], headers, index, goal)
    ensures Finding(Found(found, marks, headers, index), lines[index + 1..], marks[index + 1..], headers,
                    index + 1, goal)
  {
    var left, leftMarks := lines[index..], marks[index..];
    assert left[1..] == lines[index + 1..] && leftMarks[0] == marks[index] && leftMarks[1..] == marks[index + 1..];
    assert Consistent(leftMarks);
    FindFirst(found, left, leftMarks, headers, index, goal);
  }

  lemma FindFirst(found: seq<Span>, lines: seq<string>, marks: seq<Mark>, headers: Headers, base: nat,
                  goal: seq<Span>)
    requires lines != [] && |lines| == |marks| && Consistent(marks) && Finding(found, lines, marks, headers, base, goal)
    ensures var more := if headers.Needs(marks[0].key) then [Span(base, base + 1 + Extent(marks[1..]))] else [];
            Finding(found + more, lines[1..], marks[1..], headers, base + 1, goal)
  {
    if marks[0].key.Some? {
      MethodLine(lines, marks, headers, base);
      var tail := Spans(Segments(lines[1..], marks[1..]), headers, base + 1);
      Regroup(found, [Span(base, base + 1 + Extent(marks[1..]))], tail);
    } else {
      PlainLine(lines, marks, headers, base);
    }
    assert found + [] == found;
  }

  function Found(found: seq<Span>, marks: seq<Mark>, headers: Headers, index: nat): seq<Span>
    requires index < |marks|
  {
    if headers.Needs(marks[index].key) then found + [Span(index, index + 1 + Extent(marks[index + 1..]))] else found
  }

  method FixTenantHeaders(lines: seq<string>, headers: Headers) returns (fixed: seq<string>, count: nat)
    ensures fixed == HeadersFixed(lines, headers)
    ensures count == |Spans(SegmentsOf(lines), headers, 0)|
  {
    ghost var marks := Marks(lines, "");
    MarksAreConsistent(lines, "");
    assert lines[0..] == lines && marks[0..] == marks;
    var operationsToFix := FindOperations(lines, headers, marks);
    fixed, count := lines, |operationsToFix|;
    JoinSegments(lines, Marks(lines, ""));
    SpansFit(SegmentsOf(lines), headers, 0);
    for k := |operationsToFix| downto 0
      invariant fixed == SplicedAll(lines, operationsToFix[k..], headers) && |fixed| >= |lines|
    {
      var span := operationsToFix[k];
      assert operationsToFix[k..][0] == span && operationsToFix[k..][1..] == operationsToFix[k + 1..];
      fixed := Splice(fixed, span, headers);
    }
    assert operationsToFix[0..] == operationsToFix;
    assert [] + lines == lines && [] + HeadersFixed(lines, headers) == HeadersFixed(lines, headers);
    SplicesFix(lines, [], SegmentsOf(lines), headers);
  }

  method Splice(lines: seq<string>, span: Span, headers: Headers) returns (spliced: seq<string>)
    requires span.start < span.end <= |lines|
    ensures spliced == Spliced(lines, span, headers)
  {
    var first := span.start + 1;
    var at := FindIndex(lines, first, span.end, headers.parameters);
    if at < span.end {
      spliced := lines[..at + 1] + [headers.reference] + lines[at + 1..];
      InsertInside(lines, first, span.end, at - first + 1, headers.reference);
    } else {
      spliced := lines[..first] + [headers.parameters, headers.reference] + lines[first..];
      InsertBefore(lines, first, span.end, [headers.parameters, headers.reference]);
    }
  }

  method FindIndex(lines: seq<string>, first: nat, end: nat, text: string) returns (at: nat)
    requires first <= end <= |lines|
    ensures at == first + FirstAt(lines[first..end], text)
  {
    ghost var body := lines[first..end];
    at := first;
    assert body[0..] == body;
    while at < end && lines[at] != text
      invariant first <= at <= end
      invariant at + FirstAt(body[at - first..], text) == first + FirstAt(body, text)
    {
      assert body[at - first..][1..] == body[at - first + 1..];
      at := at + 1;
    }
  }

  lemma InsertInside<T>(lines: seq<T>, first: nat, end: nat, n: nat, x: T)
    requires first + n <= end <= |lines|
    ensures var body := lines[first..end];
            lines[..first + n] + [x] + lines[first + n..] ==
                lines[..first] + (body[..n] + [x] + body[n..]) + lines[end..]
  {
    assert lines[..first + n] == lines[..first] + lines[first..end][..n];
    assert lines[first + n..] == lines[first..end][n..] + lines[end..];
  }

  lemma InsertBefore<T>(lines: seq<T>, first: nat, end: nat, xs: seq<T>)
    requires first <= end <= |lines|
    ensures lines[..first] + xs + lines[first..] == lines[..first] + (xs + lines[first..end]) + lines[end..]
  {
    assert lines[first..] == lines[first..end] + lines[end..];
  }
}
