/** What the tenant header fix guarantees: it only inserts, it stays inside the selected blocks, and it is done once. */
module TenantHeaderTheorems {
  import opened Common
  import opened SwaggerLines
  import opened TenantHeaderFix

  /** The inserted lines are block lines. */
  predicate Insertable(headers: Headers) {
    !IsStop(headers.parameters) && !IsStop(headers.reference)
  }

  lemma OpenApiLinesAreInsertable(headers: Headers)
    requires headers.parameters == PARAMETERS && headers.reference == REFERENCE
    ensures Insertable(headers) && headers.parameters != headers.reference
  {
    assert PARAMETERS[6] == 'p' && REFERENCE[6] == '-';
    NoStop(PARAMETERS);
    NoStop(REFERENCE);
  }

  lemma NoStop(line: string)
    requires |line| > 6 && line[0] == ' ' && line[2] == ' ' && line[4] == ' '
    ensures !IsStop(line)
  {
    VerbShape(line);
    PathShape(line);
    assert COMPONENTS[0] == 'c';
  }

  // ---- Only the selected blocks change

  ghost predicate StopFree(body: seq<string>) {
    forall line | line in body :: !IsStop(line)
  }

  lemma {:induction false} ThroughBody(body: seq<string>, more: seq<string>, route: string)
    requires StopFree(body)
    ensures Marks(body + more, route)[|body|..] == Marks(more, route)
    ensures Extent(Marks(body + more, route)) == |body| + Extent(Marks(more, route))
  {
    if body == [] {
      assert body + more == more;
      assert Marks(more, route)[0..] == Marks(more, route);
    } else {
      assert body == [body[0]] + body[1..];
      Regroup([body[0]], body[1..], more);
      ThroughBody(body[1..], more, route);
      ThroughLine(body[0], body[1..] + more, route, |body| - 1);
    }
  }

  lemma ThroughLine(line: string, rest: seq<string>, route: string, n: nat)
    requires !IsStop(line) && n <= |rest|
    ensures Marks([line] + rest, route)[n + 1..] == Marks(rest, route)[n..]
    ensures Extent(Marks([line] + rest, route)) == 1 + Extent(Marks(rest, route))
  {
    MarksCons(line, rest, route);
    assert Marks([line] + rest, route)[1..] == Marks(rest, route);
  }

  lemma MarksCons(line: string, rest: seq<string>, route: string)
    ensures Marks([line] + rest, route) ==
              [Mark(IsStop(line), OperationAt(line, route))] + Marks(rest, RouteAfter(route, line))
    ensures !IsStop(line) ==> RouteAfter(route, line) == route
  {
    assert ([line] + rest)[1..] == rest;
  }

  /** A block ends at a line that ends blocks, or with the file. */
  ghost predicate Ends(more: seq<string>) {
    more == [] || IsStop(more[0])
  }

  lemma {:induction false} BlockBelow(lines: seq<string>, route: string)
    ensures var n := Extent(Marks(lines, route));
            && n <= |lines| && StopFree(lines[..n]) && Ends(lines[n..])
            && Marks(lines[n..], route) == Marks(lines, route)[n..]
  {
    if lines == [] || IsStop(lines[0]) {
      assert lines[0..] == lines;
      assert Marks(lines, route)[0..] == Marks(lines, route);
    } else {
      var n := Extent(Marks(lines[1..], route));
      BlockBelow(lines[1..], route);
      assert lines == [lines[0]] + lines[1..];
      ThroughLine(lines[0], lines[1..], route, n);
      OneMore(lines[0], lines[1..], n);
    }
  }

  lemma OneMore(line: string, rest: seq<string>, n: nat)
    requires n <= |rest| && !IsStop(line) && StopFree(rest[..n])
    ensures StopFree(([line] + rest)[..n + 1]) && ([line] + rest)[n + 1..] == rest[n..]
  {
    assert ([line] + rest)[..n + 1] == [line] + rest[..n];
  }

  lemma ReferencedIsStopFree(body: seq<string>, headers: Headers)
    requires StopFree(body) && Insertable(headers)
    ensures StopFree(Referenced(body, headers))
  {
    var p := FirstAt(body, headers.parameters);
    forall line | line in Referenced(body, headers) ensures !IsStop(line) {
      assert line in body || line == headers.parameters || line == headers.reference;
    }
  }

  lemma SegmentOfBlock(head: string, body: seq<string>, more: seq<string>, route: string)
    requires StopFree(body) && Ends(more) && OperationAt(head, route).Some?
    ensures var lines := ([head] + body) + more;
            Segments(lines, Marks(lines, route))
            == [Segment(OperationAt(head, route), head, body)] + Segments(more, Marks(more, RouteAfter(route, head)))
  {
    var next := RouteAfter(route, head);
    Regroup([head], body, more);
    MarksCons(head, body + more, route);
    ThroughBody(body, more, next);
    EndsHere(more, next);
    FirstSegment(head, body, more, Mark(IsStop(head), OperationAt(head, route)), Marks(body + more, next));
  }

  lemma FirstSegment(head: string, body: seq<string>, more: seq<string>, mark: Mark, below: seq<Mark>)
    requires mark.key.Some? && |below| == |body| + |more| && Extent(below) == |body|
    ensures Segments([head] + (body + more), [mark] + below)
            == [Segment(mark.key, head, body)] + Segments(more, below[|body|..])
  {
    var lines, marks := [head] + (body + more), [mark] + below;
    assert lines[1..] == body + more && marks[1..] == below;
    assert (body + more)[..|body|] == body && (body + more)[|body|..] == more;
  }

  lemma EndsHere(more: seq<string>, route: string)
    requires Ends(more)
    ensures Extent(Marks(more, route)) == 0
  {
  }

  lemma SegmentOfLine(head: string, more: seq<string>, route: string)
    requires OperationAt(head, route).None?
    ensures var lines := ([head] + []) + more;
            Segments(lines, Marks(lines, route)) ==
                [Segment(None, head, [])] + Segments(more, Marks(more, RouteAfter(route, head)))
  {
    var lines := ([head] + []) + more;
    assert lines == [head] + more;
    MarksCons(head, more, route);
    assert lines[1..] == more && more[..0] == [] && more[0..] == more;
    assert Marks(lines, route)[1..][0..] == Marks(more, RouteAfter(route, head));
  }

  /** Fixing keeps the line a file starts with. */
  lemma FirstLineStays(segments: seq<Segment>, headers: Headers)
    ensures Ends(Join(segments)) ==> Ends(Join(AllFixed(segments, headers)))
  {
    if segments != [] {
      JoinFixed(segments, headers);
      assert Join(segments)[0] == segments[0].head;
    }
  }

  lemma {:induction false} FixedSegments(lines: seq<string>, route: string, headers: Headers)
    requires Insertable(headers)
    ensures var segments := Segments(lines, Marks(lines, route));
            var fixed := Join(AllFixed(segments, headers));
            Segments(fixed, Marks(fixed, route)) == AllFixed(segments, headers)
    decreases |lines|
  {
    if lines != [] {
      var head, below, next := lines[0], lines[1..], RouteAfter(route, lines[0]);
      MarksCons(head, below, route);
      assert lines == [head] + below;
      var n := if OperationAt(head, route).Some? then Extent(Marks(below, next)) else 0;
      var body, more := below[..n], below[n..];
      BlockBelow(below, next);
      assert below[..0] == [] && below[0..] == below && Marks(below, next)[0..] == Marks(below, next);
      FixedSegments(more, next, headers);
      FixedStep(Segment(OperationAt(head, route), head, body), more, route, headers);
      assert Segments(lines, Marks(lines, route)) ==
          [Segment(OperationAt(head, route), head, body)] + Segments(more, Marks(more, next));
    }
  }

  lemma FixedStep(segment: Segment, more: seq<string>, route: string, headers: Headers)
    requires Insertable(headers) && segment.key == OperationAt(segment.head, route)
    requires if segment.key.Some? then StopFree(segment.body) && Ends(more) else segment.body == []
    requires var rest := Segments(more, Marks(more, RouteAfter(route, segment.head)));
             var fixed := Join(AllFixed(rest, headers));
             Segments(fixed, Marks(fixed, RouteAfter(route, segment.head))) == AllFixed(rest, headers)
    ensures var rest := Segments(more, Marks(more, RouteAfter(route, segment.head)));
            var fixed := Join(AllFixed([segment] + rest, headers));
            Segments(fixed, Marks(fixed, route)) == AllFixed([segment] + rest, headers)
  {
    var rest := Segments(more, Marks(more, RouteAfter(route, segment.head)));
    var all := [segment] + rest;
    assert all[1..] == rest;
    JoinFixed(all, headers);
    var out := Join(AllFixed(rest, headers));
    if segment.key.Some? {
      ReferencedIsStopFree(segment.body, headers);
      JoinSegments(more, Marks(more, RouteAfter(route, segment.head)));
      FirstLineStays(rest, headers);
      SegmentOfBlock(segment.head, Fixed(segment, headers).body, out, route);
    } else {
      SegmentOfLine(segment.head, out, route);
    }
  }

  /** Every selected operation gets the reference in its own block; every other line and block stays as it was. */
  lemma FixStaysInBlocks(lines: seq<string>, headers: Headers)
    requires headers.parameters == PARAMETERS && headers.reference == REFERENCE
    ensures SegmentsOf(HeadersFixed(lines, headers)) == AllFixed(SegmentsOf(lines), headers)
  {
    OpenApiLinesAreInsertable(headers);
    FixedSegments(lines, "", headers);
  }

  // ---- Nothing is lost, one reference is gained

  /** A fixed block is the old block with its reference, and where needed the line that opens the list, put in at
    * one place; taking them out again gives the old block. */
  lemma OneReferenceIsGained(body: seq<string>, headers: Headers)
    requires headers.parameters != headers.reference
    ensures var fixed := Referenced(body, headers);
            && multiset(fixed)[headers.reference] == multiset(body)[headers.reference] + 1
            && (headers.parameters in body ==>
                  exists p :: 0 < p <= |body| && headers.parameters !in body[..p - 1]
                      && body[p - 1] == headers.parameters
                              && fixed == body[..p] + [headers.reference] + body[p..])
            && (headers.parameters !in body ==> fixed == [headers.parameters, headers.reference] + body)
  {
    FirstAtIsFirst(body, headers.parameters);
    var p := FirstAt(body, headers.parameters) + 1;
    if p <= |body| {
      assert body == body[..p] + body[p..];
      assert body[..p - 1] == body[..FirstAt(body, headers.parameters)];
    }
  }

  lemma {:induction false} FirstAtIsFirst(body: seq<string>, text: string)
    ensures var p := FirstAt(body, text);
            && text !in body[..p] && (p < |body| ==> body[p] == text) && (p == |body| <==> text !in body)
  {
    if body != [] && body[0] != text {
      FirstAtIsFirst(body[1..], text);
      var p := FirstAt(body[1..], text);
      assert body == [body[0]] + body[1..];
      assert body[..p + 1] == [body[0]] + body[1..][..p];
    }
  }

  /** Which lines of a fixed segment were in the original. */
  function Kept(segment: Segment, headers: Headers): seq<bool> {
    var p := FirstAt(segment.body, headers.parameters);
    var n := |segment.body|;
    if !headers.Needs(segment.key) then Same(true, n + 1)
    else if p < n then Around(p + 2, 1, n - p - 1)
    else Around(1, 2, n)
  }

  function Same(keep: bool, n: nat): seq<bool> {
    seq(n, _ => keep)
  }

  function Around(before: nat, inserted: nat, after: nat): seq<bool> {
    Same(true, before) + Same(false, inserted) + Same(true, after)
  }

  function AllKept(segments: seq<Segment>, headers: Headers): seq<bool> {
    if segments == [] then [] else Kept(segments[0], headers) + AllKept(segments[1..], headers)
  }

  function Pick<T>(items: seq<T>, keep: seq<bool>): seq<T>
    requires |items| == |keep|
  {
    if items == [] then []
    else if keep[0] then [items[0]] + Pick(items[1..], keep[1..])
    else Pick(items[1..], keep[1..])
  }

  lemma {:induction false} PickAppend<T>(a: seq<T>, b: seq<T>, keepA: seq<bool>, keepB: seq<bool>)
    requires |a| == |keepA| && |b| == |keepB|
    ensures Pick(a + b, keepA + keepB) == Pick(a, keepA) + Pick(b, keepB)
  {
    if a == [] {
      assert a + b == b && keepA + keepB == keepB;
    } else {
      PickAppend(a[1..], b, keepA[1..], keepB);
      assert (a + b)[1..] == a[1..] + b && (keepA + keepB)[1..] == keepA[1..] + keepB;
    }
  }

  lemma {:induction false} PickSame<T>(items: seq<T>, keep: bool)
    ensures Pick(items, Same(keep, |items|)) == if keep then items else []
  {
    if items != [] {
      PickSame(items[1..], keep);
      assert Same(keep, |items|)[1..] == Same(keep, |items| - 1);
    }
  }

  lemma PickAround<T>(before: seq<T>, inserted: seq<T>, after: seq<T>)
    ensures Pick(before + inserted + after, Around(|before|, |inserted|, |after|)) == before + after
  {
    PickSame(before, true);
    PickSame(inserted, false);
    PickSame(after, true);
    PickAppend(before, inserted, Same(true, |before|), Same(false, |inserted|));
    PickAppend(before + inserted, after, Same(true, |before|) + Same(false, |inserted|), Same(true, |after|));
    assert before + [] == before;
  }

  lemma KeptLines(segment: Segment, headers: Headers)
    ensures var fixed := Fixed(segment, headers);
            && |Kept(segment, headers)| == 1 + |fixed.body|
            && Pick([fixed.head] + fixed.body, Kept(segment, headers)) == [segment.head] + segment.body
  {
    var body, p := segment.body, FirstAt(segment.body, headers.parameters);
    if !headers.Needs(segment.key) {
      PickSame([segment.head] + body, true);
    } else if p < |body| {
      KeptInList(segment.head, body, p + 1, headers.reference);
    } else {
      PickAround([segment.head], [headers.parameters, headers.reference], body);
      Regroup([segment.head], [headers.parameters, headers.reference], body);
    }
  }

  lemma KeptInList(head: string, body: seq<string>, n: nat, x: string)
    requires n <= |body|
    ensures Pick([head] + (body[..n] + [x] + body[n..]), Around(n + 1, 1, |body| - n)) == [head] + body
  {
    PickAround([head] + body[..n], [x], body[n..]);
    assert [head] + (body[..n] + [x] + body[n..]) == ([head] + body[..n]) + [x] + body[n..];
    assert ([head] + body[..n]) + body[n..] == [head] + body;
  }

  lemma {:induction false} KeptEverywhere(segments: seq<Segment>, headers: Headers)
    ensures |AllKept(segments, headers)| == |Join(AllFixed(segments, headers))|
    ensures Pick(Join(AllFixed(segments, headers)), AllKept(segments, headers)) == Join(segments)
  {
    if segments != [] {
      KeptEverywhere(segments[1..], headers);
      JoinFixed(segments, headers);
      KeptLines(segments[0], headers);
      var fixed := Fixed(segments[0], headers);
      PickAppend([fixed.head] + fixed.body, Join(AllFixed(segments[1..], headers)),
                 Kept(segments[0], headers), AllKept(segments[1..], headers));
    }
  }

  /** Leaving out the inserted lines gives back the original file. */
  lemma FixOnlyInserts(lines: seq<string>, headers: Headers)
    ensures var kept := AllKept(SegmentsOf(lines), headers);
            |kept| == |HeadersFixed(lines, headers)| && Pick(HeadersFixed(lines, headers), kept) == lines
  {
    KeptEverywhere(SegmentsOf(lines), headers);
    JoinSegments(lines, Marks(lines, ""));
  }

  // ---- A second run

  /** The block lists the reference directly below the line that opens its parameter list. */
  ghost predicate Lists(body: seq<string>, headers: Headers) {
    exists i :: 0 <= i < |body| - 1 && body[i] == headers.parameters && body[i + 1] == headers.reference
  }

  lemma ReferencedLists(body: seq<string>, headers: Headers)
    ensures Lists(Referenced(body, headers), headers)
  {
    FirstAtIsFirst(body, headers.parameters);
    var p, fixed := FirstAt(body, headers.parameters), Referenced(body, headers);
    if p < |body| {
      assert fixed[p] == headers.parameters && fixed[p + 1] == headers.reference;
    } else {
      assert fixed[0] == headers.parameters && fixed[1] == headers.reference;
    }
  }

  /** What the checker finds documented when it reads the fixed file: all it found before, and every operation
    * whose blocks list the reference. When the file can be read is the subject of TenantHeaderLayout. */
  ghost predicate Rereads(later: Headers, headers: Headers, fixed: seq<Segment>) {
    && later.expected == headers.expected && headers.documented <= later.documented
    && forall key {:trigger key in later.documented} | Listed(fixed, key, headers) :: key in later.documented
  }

  ghost predicate Listed(fixed: seq<Segment>, key: string, headers: Headers) {
    && (exists i :: 0 <= i < |fixed| && fixed[i].key == Some(key))
    && forall i | 0 <= i < |fixed| && fixed[i].key == Some(key) :: Lists(fixed[i].body, headers)
  }

  lemma {:induction false} FixedAt(segments: seq<Segment>, headers: Headers, k: nat)
    requires k < |segments|
    ensures |AllFixed(segments, headers)| == |segments| && AllFixed(segments, headers)[k] == Fixed(segments[k], headers)
  {
    if k > 0 {
      FixedAt(segments[1..], headers, k - 1);
    } else if |segments| > 1 {
      FixedAt(segments[1..], headers, 0);
    }
  }

  lemma SelectedAreListed(segments: seq<Segment>, headers: Headers, k: nat)
    requires k < |segments| && headers.Needs(segments[k].key)
    ensures Listed(AllFixed(segments, headers), segments[k].key.value, headers)
  {
    var fixed, key := AllFixed(segments, headers), segments[k].key;
    FixedAt(segments, headers, k);
    assert fixed[k].key == key;
    forall i | 0 <= i < |fixed| && fixed[i].key == key ensures Lists(fixed[i].body, headers) {
      FixedAt(segments, headers, i);
      ReferencedLists(segments[i].body, headers);
    }
  }

  lemma {:induction false} NothingSelected(segments: seq<Segment>, headers: Headers, base: nat)
    requires forall i | 0 <= i < |segments| :: !headers.Needs(segments[i].key)
    ensures Spans(segments, headers, base) == [] && AllFixed(segments, headers) == segments
  {
    if segments != [] {
      NothingSelected(segments[1..], headers, base + 1 + |segments[0].body|);
    }
  }

  /** Once the fixed file is read again, no operation of it needs the reference: the check passes, the scan selects
    * nothing, and a second fix changes nothing. */
  lemma SecondRunSelectsNothing(lines: seq<string>, headers: Headers, later: Headers)
    requires headers.parameters == PARAMETERS && headers.reference == REFERENCE
    requires later.parameters == PARAMETERS && later.reference == REFERENCE
    requires Rereads(later, headers, SegmentsOf(HeadersFixed(lines, headers)))
    ensures var fixed := HeadersFixed(lines, headers);
            && Spans(SegmentsOf(fixed), later, 0) == []
            && HeadersFixed(fixed, later) == fixed
            && forall i | 0 <= i < |SegmentsOf(fixed)| :: !later.Needs(SegmentsOf(fixed)[i].key)
  {
    var segments, fixed := SegmentsOf(lines), HeadersFixed(lines, headers);
    FixStaysInBlocks(lines, headers);
    var after := SegmentsOf(fixed);
    forall i | 0 <= i < |after| ensures !later.Needs(after[i].key) {
      NotNeeded(segments, headers, later, i);
    }
    NothingSelected(after, later, 0);
    JoinSegments(fixed, Marks(fixed, ""));
  }

  lemma NotNeeded(segments: seq<Segment>, headers: Headers, later: Headers, i: nat)
    requires i < |AllFixed(segments, headers)| && Rereads(later, headers, AllFixed(segments, headers))
    ensures !later.Needs(AllFixed(segments, headers)[i].key)
  {
    if segments != [] {
      FixedAt(segments, headers, 0);
    }
    FixedAt(segments, headers, i);
    if headers.Needs(segments[i].key) {
      SelectedAreListed(segments, headers, i);
      assert segments[i].key.value in later.documented;
    }
  }
}
