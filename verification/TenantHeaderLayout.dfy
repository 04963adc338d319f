/**
 * When a YAML reader can still read the file after the tenant header fix, and that a second run then has nothing to do.
 */
module TenantHeaderLayout {
  import opened Common
  import opened SwaggerLines
  import opened TenantHeaderFix
  import opened TenantHeaderTheorems

  // ---- Duplicate keys

  /** How many lines of a block open a parameter list, in whatever style; a YAML reader rejects more than one. */
  function ListKeys(body: seq<string>, key: string): nat {
    if body == [] then 0 else (if key <= body[0] then 1 else 0) + ListKeys(body[1..], key)
  }

  lemma {:induction false} ListKeysAppend(a: seq<string>, b: seq<string>, key: string)
    ensures ListKeys(a + b, key) == ListKeys(a, key) + ListKeys(b, key)
  {
    if a == [] {
      assert a + b == b;
    } else {
      ListKeysAppend(a[1..], b, key);
      assert (a + b)[1..] == a[1..] + b;
    }
  }

  /** The fix adds a key exactly where no line is the bare `parameters:`. */
  lemma FixedKeys(body: seq<string>, headers: Headers)
    requires !(headers.parameters <= headers.reference)
    ensures var key := headers.parameters;
            ListKeys(Referenced(body, headers), key) == ListKeys(body, key) + if key in body then 0 else 1
  {
    var key, p := headers.parameters, FirstAt(body, headers.parameters);
    FirstAtIsFirst(body, key);
    if p < |body| {
      var before, after := body[..p + 1], body[p + 1..];
      ListKeysAppend(before, [headers.reference], key);
      ListKeysAppend(before + [headers.reference], after, key);
      ListKeysAppend(before, after, key);
      assert body == before + after;
    } else {
      assert [key, headers.reference][1..] == [headers.reference];
      ListKeysAppend([key, headers.reference], body, key);
    }
  }

  // ---- Lists at one indentation

  predicate IsDeepItem(line: string) {
    IsItem(line) && Indent(line) > 6
  }

  /** The lines below the first one that is neither blank nor a comment. */
  function AfterFirst(lines: seq<string>): seq<string> {
    if lines == [] then [] else if IsSkipped(lines[0]) then AfterFirst(lines[1..]) else lines[1..]
  }

  predicate StartsDeep(lines: seq<string>) {
    FirstLine(lines).Some? && IsDeepItem(FirstLine(lines).value)
  }

  /**
   * What stands below `parameters:` is nothing or a list. The reference is an entry of one line, so an entry right
   * below it has to stand where it does.
   */
  predicate ListBelow(rest: seq<string>, reference: string) {
    match FirstLine(rest)
    case None => true
    case Some(first) =>
      !Continues(first)
      || (IsItem(first) && (first == reference ==> !StartsDeep(AfterFirst(rest))))
  }

  /** The block of an operation: keys at six spaces, at most one parameter list, entries at one indentation. */
  predicate IsReadable(body: seq<string>, headers: Headers) {
    var p := FirstAt(body, headers.parameters);
    && ListKeys(body, headers.parameters) <= 1
    && (FirstLine(body).Some? ==> Indent(FirstLine(body).value) <= 6)
    && (p < |body| ==> ListBelow(body[p + 1..], headers.reference))
  }

  /** The entries of the parameter list stand deeper than the fixer's own line. */
  predicate IsNested(body: seq<string>, headers: Headers) {
    var p := FirstAt(body, headers.parameters);
    p < |body| && StartsDeep(body[p + 1..])
  }

  /** The fixer's lines: a key and an entry of a list, both at six spaces. */
  ghost predicate HasLayout(headers: Headers) {
    && !IsSkipped(headers.parameters) && Indent(headers.parameters) == 6 && !IsItem(headers.parameters)
    && !IsSkipped(headers.reference) && Indent(headers.reference) == 6 && IsItem(headers.reference)
    && headers.parameters != headers.reference && !(headers.parameters <= headers.reference)
  }

  lemma OpenApiLayout(headers: Headers)
    requires headers.parameters == PARAMETERS && headers.reference == REFERENCE
    ensures HasLayout(headers)
  {
    OpenApiLinesAreInsertable(headers);
    ParametersLayout();
    ReferenceLayout();
  }

  lemma ParametersLayout()
    ensures Indent(PARAMETERS) == 6 && !IsSkipped(PARAMETERS) && !IsItem(PARAMETERS) && PARAMETERS[6] == 'p'
  {
    IndentIs(PARAMETERS, 6);
  }

  lemma ReferenceLayout()
    ensures Indent(REFERENCE) == 6 && !IsSkipped(REFERENCE) && IsItem(REFERENCE) && REFERENCE[6] == '-'
  {
    assert REFERENCE[6] == '-' && REFERENCE[7] == ' ';
    IndentIs(REFERENCE, 6);
  }

  lemma FirstLineCons(line: string, rest: seq<string>)
    ensures FirstLine([line] + rest) == if IsSkipped(line) then FirstLine(rest) else Some(line)
    ensures AfterFirst([line] + rest) == if IsSkipped(line) then AfterFirst(rest) else rest
  {
    assert ([line] + rest)[1..] == rest;
  }

  /** What is put in behind a line that counts does not change the first one. */
  lemma {:induction false} FirstLineAppend(a: seq<string>, b: seq<string>, c: seq<string>)
    requires a != [] && !IsSkipped(a[|a| - 1])
    ensures FirstLine(a + b) == FirstLine(a + c)
  {
    assert (a + b)[1..] == a[1..] + b && (a + c)[1..] == a[1..] + c;
    if |a| > 1 {
      FirstLineAppend(a[1..], b, c);
    }
  }

  /** The first `parameters:` line stays the first. */
  lemma {:induction false} FirstAtAppend(a: seq<string>, b: seq<string>, text: string)
    requires text !in a
    ensures FirstAt(a + [text] + b, text) == |a|
  {
    if a == [] {
      assert [] + [text] + b == [text] + b;
    } else {
      assert a == [a[0]] + a[1..] && (a + [text] + b)[1..] == a[1..] + [text] + b;
      FirstAtAppend(a[1..], b, text);
    }
  }

  lemma ReferenceAbove(rest: seq<string>, headers: Headers)
    requires HasLayout(headers)
    ensures ListBelow([headers.reference] + rest, headers.reference) <==> !StartsDeep(rest)
  {
    FirstLineCons(headers.reference, rest);
  }

  /** A block that could be read can still be read after the fix exactly when its list, if it has one, is opened by the
    * bare `parameters:` and its entries stand at six spaces, as the inserted one does. */
  lemma FixedIsReadableIff(body: seq<string>, headers: Headers)
    requires HasLayout(headers) && IsReadable(body, headers)
    ensures IsReadable(Referenced(body, headers), headers) <==>
              if headers.parameters in body then !IsNested(body, headers) else ListKeys(body, headers.parameters) == 0
  {
    FirstAtIsFirst(body, headers.parameters);
    if headers.parameters in body {
      InListIff(body, headers);
    } else {
      AtTopIff(body, headers);
    }
  }

  lemma InListIff(body: seq<string>, headers: Headers)
    requires HasLayout(headers) && IsReadable(body, headers) && headers.parameters in body
    ensures IsReadable(Referenced(body, headers), headers) <==> !IsNested(body, headers)
  {
    var p := FirstAt(body, headers.parameters);
    FixedKeys(body, headers);
    FirstAtIsFirst(body, headers.parameters);
    ReadableInList(body[..p], body[p + 1..], body, headers);
  }

  lemma AtTopIff(body: seq<string>, headers: Headers)
    requires HasLayout(headers) && IsReadable(body, headers) && headers.parameters !in body
    ensures IsReadable(Referenced(body, headers), headers) <==> ListKeys(body, headers.parameters) == 0
  {
    FixedKeys(body, headers);
    FirstAtIsFirst(body, headers.parameters);
    ReadableAtTop(body, headers);
  }

  lemma ReadableInList(before: seq<string>, after: seq<string>, body: seq<string>, headers: Headers)
    requires HasLayout(headers)
    requires headers.parameters !in before && body == before + [headers.parameters] + after
    requires FirstLine(body).Some? ==> Indent(FirstLine(body).value) <= 6
    ensures var key, fixed := headers.parameters, before + [headers.parameters] + ([headers.reference] + after);
            && FirstAt(body, key) == FirstAt(fixed, key) == |before|
            && (FirstLine(fixed).Some? ==> Indent(FirstLine(fixed).value) <= 6)
            && fixed[|before| + 1..] == [headers.reference] + after
            && (ListBelow(fixed[|before| + 1..], headers.reference) <==> !StartsDeep(after))
            && body[|before| + 1..] == after
            && body[..|before| + 1] + [headers.reference] + body[|before| + 1..] == fixed
  {
    var key := headers.parameters;
    FirstAtAppend(before, after, key);
    FirstAtAppend(before, [headers.reference] + after, key);
    FirstLineAppend(before + [key], after, [headers.reference] + after);
    ReferenceAbove(after, headers);
  }

  lemma ReadableAtTop(body: seq<string>, headers: Headers)
    requires HasLayout(headers)
    requires FirstLine(body).Some? ==> Indent(FirstLine(body).value) <= 6
    ensures var fixed := [headers.parameters, headers.reference] + body;
            && FirstAt(fixed, headers.parameters) == 0 && FirstLine(fixed) == Some(headers.parameters)
            && ListBelow(fixed[1..], headers.reference)
  {
    TwoAbove(headers.parameters, headers.reference, body);
    FirstLineCons(headers.parameters, [headers.reference] + body);
    ReferenceAbove(body, headers);
  }

  lemma TwoAbove(a: string, b: string, lines: seq<string>)
    ensures [a, b] + lines == [a] + ([b] + lines) && ([a, b] + lines)[1..] == [b] + lines
    ensures ([a, b] + lines)[0] == a
  {
  }

  /** An empty list written as `parameters: []` gets a second key. */
  lemma EmptyListWitness(headers: Headers)
    requires headers.parameters == PARAMETERS && headers.reference == REFERENCE
    ensures ListKeys([headers.parameters + " []"], headers.parameters) == 1
    ensures ListKeys(Referenced([headers.parameters + " []"], headers), headers.parameters) == 2
  {
    var key, line := headers.parameters, headers.parameters + " []";
    OpenApiLinesAreInsertable(headers);
    assert PARAMETERS[6] == 'p' && REFERENCE[6] == '-';
    assert |line| != |key| && key <= line;
    assert [line][1..] == [];
    FixedKeys([line], headers);
  }

  /** Entries deeper than six spaces, as docs/swagger.yaml writes all of its parameter lists, are readable before the
    * fix and unreadable after it. */
  lemma NestedListWitness(entry: string, headers: Headers)
    requires HasLayout(headers)
    requires IsDeepItem(entry) && !(headers.parameters <= entry)
    ensures var body := [headers.parameters, entry];
            IsReadable(body, headers) && !IsReadable(Referenced(body, headers), headers)
  {
    var body := [headers.parameters, entry];
    assert body == [headers.parameters] + [entry] && body[1..] == [entry] && [entry] == [entry] + [];
    FirstLineCons(headers.parameters, [entry]);
    FirstLineCons(entry, []);
    assert ListKeys([entry], headers.parameters) == 0;
    FixedIsReadableIff(body, headers);
  }

  /** The first line of a parameter list of docs/swagger.yaml. */
  lemma NestedEntry(entry: string)
    requires entry == "        - name: id"
    ensures IsDeepItem(entry) && !(PARAMETERS <= entry)
  {
    IndentIs(entry, 8);
    assert PARAMETERS[6] == 'p' && entry[6] == ' ';
  }

  lemma RepositoryListWitness(entry: string, headers: Headers)
    requires headers.parameters == PARAMETERS && headers.reference == REFERENCE && entry == "        - name: id"
    ensures var body := [headers.parameters, entry];
            IsReadable(body, headers) && !IsReadable(Referenced(body, headers), headers)
  {
    OpenApiLayout(headers);
    NestedEntry(entry);
    NestedListWitness(entry, headers);
  }

  // ---- Reading the fixed file

  ghost predicate AllReadable(segments: seq<Segment>, headers: Headers) {
    forall i | 0 <= i < |segments| && segments[i].key.Some? :: IsReadable(segments[i].body, headers)
  }

  /** The fix leaves the block readable. */
  predicate StaysReadable(segment: Segment, headers: Headers) {
    headers.Needs(segment.key) ==>
      if headers.parameters in segment.body then !IsNested(segment.body, headers)
      else ListKeys(segment.body, headers.parameters) == 0
  }

  /** The next run's view of a file: what was documented before, and the operations whose blocks list the reference;
    * None when the file cannot be read. */
  ghost function ReadAgain(segments: seq<Segment>, headers: Headers): Option<Headers> {
    if !AllReadable(segments, headers) then None
    else
      var listed := set i | 0 <= i < |segments| && segments[i].key.Some?
                            && Listed(segments, segments[i].key.value, headers) :: segments[i].key.value;
      Some(headers.(documented := headers.documented + listed))
  }

  lemma FixedSegmentReadable(segment: Segment, headers: Headers)
    requires HasLayout(headers)
    requires segment.key.Some? ==> IsReadable(segment.body, headers)
    ensures Fixed(segment, headers).key == segment.key
    ensures segment.key.Some? ==>
              (IsReadable(Fixed(segment, headers).body, headers) <==> StaysReadable(segment, headers))
  {
    if headers.Needs(segment.key) {
      FixedIsReadableIff(segment.body, headers);
    }
  }

  /** A file that could be read can be read after the fix exactly when that holds of every block it selects. */
  lemma FixedFileReadableIff(lines: seq<string>, headers: Headers)
    requires headers.parameters == PARAMETERS && headers.reference == REFERENCE
    requires AllReadable(SegmentsOf(lines), headers)
    ensures ReadAgain(SegmentsOf(HeadersFixed(lines, headers)), headers).Some? <==>
              forall i | 0 <= i < |SegmentsOf(lines)| :: StaysReadable(SegmentsOf(lines)[i], headers)
  {
    OpenApiLayout(headers);
    FixStaysInBlocks(lines, headers);
    FixedReadable(SegmentsOf(lines), headers);
  }

  lemma FixedReadable(segments: seq<Segment>, headers: Headers)
    requires HasLayout(headers) && AllReadable(segments, headers)
    ensures AllReadable(AllFixed(segments, headers), headers) <==>
              forall i | 0 <= i < |segments| :: StaysReadable(segments[i], headers)
  {
    var fixed := AllFixed(segments, headers);
    if segments != [] {
      FixedAt(segments, headers, 0);
    }
    forall i | 0 <= i < |segments|
      ensures |fixed| == |segments| && fixed[i].key == segments[i].key
      ensures segments[i].key.Some? ==> (IsReadable(fixed[i].body, headers) <==> StaysReadable(segments[i], headers))
    {
      FixedAt(segments, headers, i);
      FixedSegmentReadable(segments[i], headers);
    }
  }

  lemma ReadAgainFinds(segments: seq<Segment>, headers: Headers)
    requires AllReadable(segments, headers)
    ensures Rereads(ReadAgain(segments, headers).value, headers, segments)
  {
  }

  /** Where every selected block stays readable, the next run reads the file and finds nothing left to do: the check
    * passes and a second fix changes nothing. */
  lemma SecondRunFindsNothing(lines: seq<string>, headers: Headers)
    requires headers.parameters == PARAMETERS && headers.reference == REFERENCE
    requires AllReadable(SegmentsOf(lines), headers)
    requires forall i | 0 <= i < |SegmentsOf(lines)| :: StaysReadable(SegmentsOf(lines)[i], headers)
    ensures var fixed := HeadersFixed(lines, headers);
            var later := ReadAgain(SegmentsOf(fixed), headers);
            && later.Some? && HeadersFixed(fixed, later.value) == fixed
            && forall i | 0 <= i < |SegmentsOf(fixed)| :: !later.value.Needs(SegmentsOf(fixed)[i].key)
  {
    FixedFileReadableIff(lines, headers);
    var fixed := HeadersFixed(lines, headers);
    ReadAgainFinds(SegmentsOf(fixed), headers);
    SecondRunSelectsNothing(lines, headers, ReadAgain(SegmentsOf(fixed), headers).value);
  }
}
