/** The recursive directory digest of the release provenance generator. */
module DirectoryDigest {
  import opened Common

  /** A directory entry as the file system lists it; links, sockets and the like are `Other`. */
  datatype Entry =
    | File(name: string, content: Bytes)
    | Directory(name: string, entries: seq<Entry>)
    | Other(name: string)

  /** How names are compared, and how they are turned into bytes for the hash. */
  datatype Locale = Locale(compare: (string, string) -> int, encode: string -> Bytes) {
    predicate Le(a: string, b: string) {
      compare(a, b) <= 0
    }

    ghost predicate IsOrder() {
      && (forall a, b :: Le(a, b) || Le(b, a))
      && (forall a, b, c :: Le(a, b) && Le(b, c) ==> Le(a, c))
      && forall a :: Le(a, a)
    }

    /** No two names tie. */
    ghost predicate Discriminates() {
      forall a, b :: Le(a, b) && Le(b, a) ==> a == b
    }
  }

  predicate IsSkipped(name: string) {
    name == "node_modules" || name == ".next" || name == "dist" || name == ".git"
  }

  // ---- Sorting the entries of a directory

  function Insert(e: Entry, sorted: seq<Entry>, locale: Locale): seq<Entry> {
    if sorted == [] || locale.Le(e.name, sorted[0].name) then [e] + sorted
    else [sorted[0]] + Insert(e, sorted[1..], locale)
  }

  /** What the built-in stable sort leaves. */
  function Sort(entries: seq<Entry>, locale: Locale): seq<Entry> {
    if entries == [] then [] else Insert(entries[0], Sort(entries[1..], locale), locale)
  }

  lemma {:induction false} InsertMembers(e: Entry, sorted: seq<Entry>, locale: Locale)
    ensures multiset(Insert(e, sorted, locale)) == multiset(sorted) + multiset{e}
  {
    if sorted == [] || locale.Le(e.name, sorted[0].name) {
    } else {
      InsertMembers(e, sorted[1..], locale);
      assert sorted == [sorted[0]] + sorted[1..];
    }
  }

  lemma {:induction false} SortMembers(entries: seq<Entry>, locale: Locale)
    ensures multiset(Sort(entries, locale)) == multiset(entries)
  {
    if entries != [] {
      SortMembers(entries[1..], locale);
      InsertMembers(entries[0], Sort(entries[1..], locale), locale);
      assert entries == [entries[0]] + entries[1..];
    }
  }

  lemma SortKeeps(entries: seq<Entry>, locale: Locale)
    ensures |Sort(entries, locale)| == |entries|
    ensures forall e :: e in Sort(entries, locale) <==> e in entries
  {
    SortMembers(entries, locale);
    assert |multiset(Sort(entries, locale))| == |multiset(entries)|;
    assert forall e :: e in Sort(entries, locale) <==> e in multiset(Sort(entries, locale));
  }

  /** What a sort has to be: the same entries, in ascending order of the comparison. */
  lemma {:induction false} SortAscends(entries: seq<Entry>, locale: Locale)
    requires locale.IsOrder()
    ensures multiset(Sort(entries, locale)) == multiset(entries)
    ensures forall i, j | 0 <= i < j < |Sort(entries, locale)| ::
              locale.compare(Sort(entries, locale)[i].name, Sort(entries, locale)[j].name) <= 0
  {
    SortMembers(entries, locale);
    if entries != [] {
      SortAscends(entries[1..], locale);
      InsertAscends(entries[0], Sort(entries[1..], locale), locale);
    }
  }

  ghost predicate Ascends(list: seq<Entry>, locale: Locale) {
    forall i, j | 0 <= i < j < |list| :: locale.compare(list[i].name, list[j].name) <= 0
  }

  lemma {:induction false} InsertAscends(e: Entry, sorted: seq<Entry>, locale: Locale)
    requires locale.IsOrder() && Ascends(sorted, locale)
    ensures Ascends(Insert(e, sorted, locale), locale)
  {
    if sorted == [] {
    } else if locale.Le(e.name, sorted[0].name) {
      forall j | 0 <= j < |sorted| ensures locale.Le(e.name, sorted[j].name) {
        assert locale.Le(sorted[0].name, sorted[j].name);
      }
    } else {
      var rest := Insert(e, sorted[1..], locale);
      InsertAscends(e, sorted[1..], locale);
      InsertMembers(e, sorted[1..], locale);
      forall j | 0 <= j < |rest| ensures locale.Le(sorted[0].name, rest[j].name) {
        assert rest[j] in multiset(rest);
        if rest[j] != e {
          assert rest[j] in sorted[1..];
          var k :| 0 <= k < |sorted[1..]| && sorted[1..][k] == rest[j];
          assert sorted[k + 1] == rest[j];
        }
      }
    }
  }

  // ---- The traversal

  datatype Output = Output(files: nat, bytes: nat, stream: Bytes)

  const NOTHING := Output(0, 0, [])

  function Plus(a: Output, b: Output): Output {
    Output(a.files + b.files, a.bytes + b.bytes, a.stream + b.stream)
  }

  /** What a listed directory adds to the totals and to the hashed stream. `within` bounds the recursion. */
  function Walk(list: seq<Entry>, within: Entry, locale: Locale): Output
    requires within.Directory? && forall e | e in list :: e in within.entries
    decreases within, |list|
  {
    if list == [] then NOTHING else Plus(Visit(list[0], within, locale), Walk(list[1..], within, locale))
  }

  function Visit(e: Entry, within: Entry, locale: Locale): Output
    requires within.Directory? && e in within.entries
    decreases within, 0
  {
    match e
    case File(name, content) => Output(1, |content|, locale.encode(name) + content)
    case Directory(name, _) => if IsSkipped(name) then NOTHING else Traversed(e, locale)
    case Other(_) => NOTHING
  }

  /** The result of `traverse` on a directory. */
  function Traversed(directory: Entry, locale: Locale): Output
    requires directory.Directory?
    decreases directory, |directory.entries| + 1
  {
    SortKeeps(directory.entries, locale);
    Walk(Sort(directory.entries, locale), directory, locale)
  }

  class Digest {
    var totalFiles: nat
    var totalBytes: nat
    var stream: Bytes

    ghost function Result(): Output
      reads this
    {
      Output(totalFiles, totalBytes, stream)
    }

    constructor ()
      ensures Result() == NOTHING
    {
      totalFiles, totalBytes, stream := 0, 0, [];
    }

    method Traverse(directory: Entry, locale: Locale)
      requires directory.Directory?
      modifies this
      ensures Result() == Plus(old(Result()), Traversed(directory, locale))
      decreases directory, 1
    {
      SortKeeps(directory.entries, locale);
      var entries := Sort(directory.entries, locale);
      ghost var goal := Plus(Result(), Traversed(directory, locale));
      assert entries[0..] == entries;
      for i := 0 to |entries|
        invariant Remaining(Result(), entries[i..], directory, locale, goal)
      {
        RemainingStep(Result(), entries, i, directory, locale, goal);
        Update(entries[i], directory, locale);
      }
      PlusNothing(Result());
    }

    method Update(entry: Entry, ghost within: Entry, locale: Locale)
      requires within.Directory? && entry in within.entries
      modifies this
      ensures Result() == Plus(old(Result()), Visit(entry, within, locale))
      decreases within, 0
    {
      PlusNothing(Result());
      match entry
      case Directory(name, _) =>
        if name != "node_modules" && name != ".next" && name != "dist" && name != ".git" {
          Traverse(entry, locale);
        }
      case File(name, content) =>
        totalFiles := totalFiles + 1;
        totalBytes := totalBytes + |content|;
        Regroup(stream, locale.encode(name), content);
        stream := stream + locale.encode(name);
        stream := stream + content;
      case Other(_) =>
    }
  }

  /** What has been hashed and counted, followed by the entries that are left, is the goal. */
  ghost predicate Remaining(done: Output, left: seq<Entry>, within: Entry, locale: Locale, goal: Output) {
    && within.Directory? && (forall e | e in left :: e in within.entries)
    && Plus(done, Walk(left, within, locale)) == goal
  }

  lemma RemainingStep(done: Output, entries: seq<Entry>, i: nat, within: Entry, locale: Locale, goal: Output)
    requires i < |entries| && Remaining(done, entries[i..], within, locale, goal)
    ensures Remaining(Plus(done, Visit(entries[i], within, locale)), entries[i + 1..], within, locale, goal)
  {
    assert entries[i..][0] == entries[i] && entries[i..][1..] == entries[i + 1..];
    PlusIsAssociative(done, Visit(entries[i], within, locale), Walk(entries[i + 1..], within, locale));
  }

  /** The totals and the digest of a path; for a missing directory the digest is 64 zeros. The hash is a parameter. */
  method ComputeDirectoryDigest(directory: Option<Entry>, locale: Locale, hash: Bytes -> string)
    returns (totalFiles: nat, totalBytes: nat, hex: string)
    requires directory.Some? ==> directory.value.Directory?
    ensures directory.None? ==> totalFiles == totalBytes == 0 && |hex| == 64 && forall i | 0 <= i < 64 :: hex[i] == '0'
    ensures directory.Some? ==>
              var output := Traversed(directory.value, locale);
              totalFiles == output.files && totalBytes == output.bytes && hex == hash(output.stream)
  {
    if directory.None? {
      return 0, 0, seq(64, _ => '0');
    }
    var digest := new Digest();
    digest.Traverse(directory.value, locale);
    PlusNothing(Traversed(directory.value, locale));
    return digest.totalFiles, digest.totalBytes, hash(digest.stream);
  }

  lemma PlusIsAssociative(a: Output, b: Output, c: Output)
    ensures Plus(a, Plus(b, c)) == Plus(Plus(a, b), c)
  {
    Regroup(a.stream, b.stream, c.stream);
  }

  lemma PlusNothing(a: Output)
    ensures Plus(a, NOTHING) == a && Plus(NOTHING, a) == a
  {
    assert a.stream + [] == a.stream;
  }

  // ---- The totals

  /** The contents of the files below a directory that is not skipped, in listing order. */
  function Contents(entries: seq<Entry>): seq<Bytes> {
    if entries == [] then [] else ContentsOf(entries[0]) + Contents(entries[1..])
  }

  function ContentsOf(e: Entry): seq<Bytes> {
    match e
    case File(_, content) => [content]
    case Directory(name, entries) => if IsSkipped(name) then [] else Contents(entries)
    case Other(_) => []
  }

  function TotalLength(contents: seq<Bytes>): nat {
    if contents == [] then 0 else |contents[0]| + TotalLength(contents[1..])
  }

  lemma {:induction false} TotalLengthAppend(a: seq<Bytes>, b: seq<Bytes>)
    ensures TotalLength(a + b) == TotalLength(a) + TotalLength(b)
  {
    if a == [] {
      assert a + b == b;
    } else {
      TotalLengthAppend(a[1..], b);
      assert (a + b)[1..] == a[1..] + b;
    }
  }

  /** An output has the totals of these contents. */
  ghost predicate Counts(output: Output, contents: seq<Bytes>) {
    output.files == |contents| && output.bytes == TotalLength(contents)
  }

  lemma CountsPlus(a: Output, b: Output, inA: seq<Bytes>, inB: seq<Bytes>)
    requires Counts(a, inA) && Counts(b, inB)
    ensures Counts(Plus(a, b), inA + inB)
  {
    TotalLengthAppend(inA, inB);
  }

  /** Sorting a listing changes neither the number of files nor their total length. */
  lemma {:induction false} InsertCounts(e: Entry, sorted: seq<Entry>, locale: Locale)
    ensures var contents := Contents(Insert(e, sorted, locale));
            && |contents| == |ContentsOf(e)| + |Contents(sorted)|
            && TotalLength(contents) == TotalLength(ContentsOf(e)) + TotalLength(Contents(sorted))
  {
    if sorted == [] || locale.Le(e.name, sorted[0].name) {
      assert ([e] + sorted)[1..] == sorted;
      TotalLengthAppend(ContentsOf(e), Contents(sorted));
    } else {
      var rest := Insert(e, sorted[1..], locale);
      InsertCounts(e, sorted[1..], locale);
      assert ([sorted[0]] + rest)[1..] == rest;
      TotalLengthAppend(ContentsOf(sorted[0]), Contents(rest));
      TotalLengthAppend(ContentsOf(sorted[0]), Contents(sorted[1..]));
    }
  }

  lemma {:induction false} SortCounts(entries: seq<Entry>, locale: Locale)
    ensures |Contents(Sort(entries, locale))| == |Contents(entries)|
    ensures TotalLength(Contents(Sort(entries, locale))) == TotalLength(Contents(entries))
  {
    if entries != [] {
      SortCounts(entries[1..], locale);
      InsertCounts(entries[0], Sort(entries[1..], locale), locale);
      TotalLengthAppend(ContentsOf(entries[0]), Contents(entries[1..]));
    }
  }

  lemma {:induction false} WalkCounts(list: seq<Entry>, within: Entry, locale: Locale)
    requires within.Directory? && forall e | e in list :: e in within.entries
    ensures Counts(Walk(list, within, locale), Contents(list))
    decreases within, |list|
  {
    if list != [] {
      VisitCounts(list[0], within, locale);
      WalkCounts(list[1..], within, locale);
      CountsPlus(Visit(list[0], within, locale), Walk(list[1..], within, locale), ContentsOf(list[0]),
          Contents(list[1..]));
    }
  }

  lemma {:induction false} VisitCounts(e: Entry, within: Entry, locale: Locale)
    requires within.Directory? && e in within.entries
    ensures Counts(Visit(e, within, locale), ContentsOf(e))
    decreases within, 0
  {
    if e.Directory? && !IsSkipped(e.name) {
      TotalsAreExact(e, locale);
    }
  }

  /** The totals are the number and the summed length of the files that are not below a skipped directory, in
    * whatever order the file system lists them. */
  lemma {:induction false} TotalsAreExact(directory: Entry, locale: Locale)
    requires directory.Directory?
    ensures Counts(Traversed(directory, locale), Contents(directory.entries))
    decreases directory, |directory.entries| + 1
  {
    SortKeeps(directory.entries, locale);
    WalkCounts(Sort(directory.entries, locale), directory, locale);
    SortCounts(directory.entries, locale);
  }

  // ---- Determinism

  ghost predicate Any(list: seq<Entry>, p: Entry -> bool) {
    list != [] && (p(list[0]) || Any(list[1..], p))
  }

  lemma {:induction false} AnyWitness(list: seq<Entry>, p: Entry -> bool) returns (e: Entry)
    requires Any(list, p)
    ensures e in list && p(e)
  {
    if p(list[0]) {
      e := list[0];
    } else {
      e := AnyWitness(list[1..], p);
    }
  }

  lemma {:induction false} AnyFrom(list: seq<Entry>, p: Entry -> bool, e: Entry)
    requires e in list && p(e)
    ensures Any(list, p)
  {
    if !p(list[0]) {
      AnyFrom(list[1..], p, e);
    }
  }

  /** The same tree, listed in any order. */
  ghost predicate Similar(a: Entry, b: Entry)
    decreases a
  {
    if a.Directory? && b.Directory? then
      && a.name == b.name
      && (forall x | x in a.entries :: Any(b.entries, y => Similar(x, y)))
      && (forall y | y in b.entries :: Any(a.entries, x => x in a.entries && Similar(x, y)))
    else a == b
  }

  /** No directory lists a name twice. */
  predicate WellNamed(e: Entry) {
    e.Directory? ==>
      && (forall i, j | 0 <= i < j < |e.entries| :: e.entries[i].name != e.entries[j].name)
      && forall x | x in e.entries :: WellNamed(x)
  }

  ghost predicate Ordered(list: seq<Entry>, locale: Locale) {
    forall i, j | 0 <= i < j < |list| :: locale.Le(list[i].name, list[j].name) && list[i].name != list[j].name
  }

  lemma {:induction false} InsertOrdered(e: Entry, sorted: seq<Entry>, locale: Locale)
    requires locale.IsOrder() && Ordered(sorted, locale)
    requires forall x | x in sorted :: x.name != e.name
    ensures Ordered(Insert(e, sorted, locale), locale)
  {
    if sorted == [] || locale.Le(e.name, sorted[0].name) {
      OrderedCons(e, sorted, locale);
    } else {
      InsertOrdered(e, sorted[1..], locale);
      InsertMembers(e, sorted[1..], locale);
      var rest := Insert(e, sorted[1..], locale);
      forall x | x in rest ensures locale.Le(sorted[0].name, x.name) && sorted[0].name != x.name {
        assert x in multiset(rest);
      }
      ConsOrdered(sorted[0], rest, locale);
    }
  }

  lemma OrderedCons(e: Entry, sorted: seq<Entry>, locale: Locale)
    requires locale.IsOrder() && Ordered(sorted, locale) && (sorted != [] ==> locale.Le(e.name, sorted[0].name))
    requires forall x | x in sorted :: x.name != e.name
    ensures Ordered([e] + sorted, locale)
  {
    forall x | x in sorted ensures locale.Le(e.name, x.name) {
      var k :| 0 <= k < |sorted| && sorted[k] == x;
      assert k > 0 ==> locale.Le(sorted[0].name, sorted[k].name);
    }
    ConsOrdered(e, sorted, locale);
  }

  lemma ConsOrdered(e: Entry, rest: seq<Entry>, locale: Locale)
    requires Ordered(rest, locale) && forall x | x in rest :: locale.Le(e.name, x.name) && e.name != x.name
    ensures Ordered([e] + rest, locale)
  {
    var list := [e] + rest;
    forall i, j | 0 <= i < j < |list| ensures locale.Le(list[i].name, list[j].name) && list[i].name != list[j].name {
      assert list[j] == rest[j - 1];
      if i > 0 {
        assert list[i] == rest[i - 1];
      }
    }
  }

  lemma {:induction false} SortOrdered(entries: seq<Entry>, locale: Locale)
    requires locale.IsOrder()
    requires forall i, j | 0 <= i < j < |entries| :: entries[i].name != entries[j].name
    ensures Ordered(Sort(entries, locale), locale)
  {
    if entries != [] {
      SortOrdered(entries[1..], locale);
      SortKeeps(entries[1..], locale);
      InsertOrdered(entries[0], Sort(entries[1..], locale), locale);
    }
  }

  /** Relations between entries that keep the name. */
  ghost predicate KeepsNames(related: (Entry, Entry) -> bool) {
    forall x, y :: related(x, y) ==> x.name == y.name
  }

  ghost predicate Covers(xs: seq<Entry>, ys: seq<Entry>, related: (Entry, Entry) -> bool) {
    && (forall x | x in xs :: Any(ys, y => related(x, y)))
    && (forall y | y in ys :: Any(xs, x => related(x, y)))
  }

  ghost predicate Aligned(xs: seq<Entry>, ys: seq<Entry>, related: (Entry, Entry) -> bool) {
    |xs| == |ys| && forall i | 0 <= i < |xs| :: related(xs[i], ys[i])
  }

  lemma OrderedHead(list: seq<Entry>, x: Entry, locale: Locale)
    requires locale.IsOrder() && Ordered(list, locale) && x in list
    ensures locale.Le(list[0].name, x.name) && (x.name == list[0].name ==> x == list[0])
  {
    var k :| 0 <= k < |list| && list[k] == x;
    assert k > 0 ==> locale.Le(list[0].name, list[k].name) && list[0].name != list[k].name;
  }

  /** Two ordered listings of the same things agree place by place. */
  lemma {:induction false} Align(xs: seq<Entry>, ys: seq<Entry>, related: (Entry, Entry) -> bool, locale: Locale)
    requires locale.IsOrder() && locale.Discriminates() && KeepsNames(related)
    requires Ordered(xs, locale) && Ordered(ys, locale) && Covers(xs, ys, related)
    ensures Aligned(xs, ys, related)
  {
    BothOrNeither(xs, ys, related);
    if xs != [] {
      AlignHeads(xs, ys, related, locale);
      AlignTails(xs, ys, related, locale);
      Align(xs[1..], ys[1..], related, locale);
      assert forall i | 0 < i < |xs| :: xs[i] == xs[1..][i - 1] && ys[i] == ys[1..][i - 1];
    }
  }

  lemma BothOrNeither(xs: seq<Entry>, ys: seq<Entry>, related: (Entry, Entry) -> bool)
    requires Covers(xs, ys, related)
    ensures xs == [] <==> ys == []
  {
    if xs != [] {
      var x := xs[0];
      assert x in xs;
      var y := AnyWitness(ys, y => related(x, y));
    }
    if ys != [] {
      var y := ys[0];
      assert y in ys;
      var x := AnyWitness(xs, x => related(x, y));
    }
  }

  lemma AlignHeads(xs: seq<Entry>, ys: seq<Entry>, related: (Entry, Entry) -> bool, locale: Locale)
    requires locale.IsOrder() && locale.Discriminates() && KeepsNames(related) && xs != [] && ys != []
    requires Ordered(xs, locale) && Ordered(ys, locale) && Covers(xs, ys, related)
    ensures related(xs[0], ys[0])
  {
    assert xs[0] in xs && ys[0] in ys;
    var y := AnyWitness(ys, y => related(xs[0], y));
    var x := AnyWitness(xs, x => related(x, ys[0]));
    OrderedHead(xs, x, locale);
    OrderedHead(ys, y, locale);
    assert locale.Le(xs[0].name, ys[0].name) && locale.Le(ys[0].name, xs[0].name);
  }

  lemma AlignTails(xs: seq<Entry>, ys: seq<Entry>, related: (Entry, Entry) -> bool, locale: Locale)
    requires locale.IsOrder() && KeepsNames(related) && xs != [] && ys != [] && related(xs[0], ys[0])
    requires Ordered(xs, locale) && Ordered(ys, locale) && Covers(xs, ys, related)
    ensures Ordered(xs[1..], locale) && Ordered(ys[1..], locale) && Covers(xs[1..], ys[1..], related)
  {
    forall x | x in xs[1..] ensures Any(ys[1..], y => related(x, y)) {
      LaterDiffers(xs, x, locale);
      var y := AnyWitness(ys, y => related(x, y));
      assert ys == [ys[0]] + ys[1..];
      AnyFrom(ys[1..], y => related(x, y), y);
    }
    forall y | y in ys[1..] ensures Any(xs[1..], x => related(x, y)) {
      LaterDiffers(ys, y, locale);
      var x := AnyWitness(xs, x => related(x, y));
      assert xs == [xs[0]] + xs[1..];
      AnyFrom(xs[1..], x => related(x, y), x);
    }
    OrderedTail(xs, locale);
    OrderedTail(ys, locale);
  }

  lemma LaterDiffers(list: seq<Entry>, x: Entry, locale: Locale)
    requires list != [] && Ordered(list, locale) && x in list[1..]
    ensures x in list && x.name != list[0].name
  {
    var k :| 0 <= k < |list| - 1 && list[1..][k] == x;
    assert list[k + 1] == x;
  }

  lemma OrderedTail(list: seq<Entry>, locale: Locale)
    requires list != [] && Ordered(list, locale)
    ensures Ordered(list[1..], locale)
  {
    forall i, j | 0 <= i < j < |list[1..]|
      ensures locale.Le(list[1..][i].name, list[1..][j].name) && list[1..][i].name != list[1..][j].name
    {
      assert list[1..][i] == list[i + 1] && list[1..][j] == list[j + 1];
    }
  }

  lemma AlignSimilar(xs: seq<Entry>, ys: seq<Entry>, a: Entry, b: Entry, locale: Locale)
    requires locale.IsOrder() && locale.Discriminates() && Ordered(xs, locale) && Ordered(ys, locale)
    requires a.Directory? && b.Directory? && Similar(a, b)
    requires (forall x :: x in xs <==> x in a.entries) && (forall y :: y in ys <==> y in b.entries)
    ensures |xs| == |ys| && forall i | 0 <= i < |xs| :: Similar(xs[i], ys[i])
  {
    var related := (x, y) => Similar(x, y);
    assert KeepsNames(related);
    forall x | x in xs ensures Any(ys, y => related(x, y)) {
      var y := AnyWitness(b.entries, y => Similar(x, y));
      AnyFrom(ys, y => related(x, y), y);
    }
    forall y | y in ys ensures Any(xs, x => related(x, y)) {
      var x := AnyWitness(a.entries, x => x in a.entries && Similar(x, y));
      AnyFrom(xs, x => related(x, y), x);
    }
    Align(xs, ys, related, locale);
    forall i | 0 <= i < |xs| ensures Similar(xs[i], ys[i]) {
      assert related(xs[i], ys[i]);
    }
  }

  lemma {:induction false} SameWalk(xs: seq<Entry>, ys: seq<Entry>, a: Entry, b: Entry, locale: Locale)
    requires locale.IsOrder() && locale.Discriminates() && a.Directory? && b.Directory? && WellNamed(a) && WellNamed(b)
    requires (forall x | x in xs :: x in a.entries) && (forall y | y in ys :: y in b.entries)
    requires |xs| == |ys| && forall i | 0 <= i < |xs| :: Similar(xs[i], ys[i])
    ensures Walk(xs, a, locale) == Walk(ys, b, locale)
    decreases a, |xs|
  {
    if xs != [] {
      assert Similar(xs[0], ys[0]) && xs[0] in a.entries && ys[0] in b.entries;
      SameVisit(xs[0], ys[0], a, b, locale);
      assert forall i | 0 < i < |xs| :: xs[i] == xs[1..][i - 1] && ys[i] == ys[1..][i - 1];
      SameWalk(xs[1..], ys[1..], a, b, locale);
    }
  }

  lemma {:induction false} SameVisit(x: Entry, y: Entry, a: Entry, b: Entry, locale: Locale)
    requires locale.IsOrder() && locale.Discriminates() && a.Directory? && b.Directory?
    requires x in a.entries && y in b.entries && WellNamed(x) && WellNamed(y) && Similar(x, y)
    ensures Visit(x, a, locale) == Visit(y, b, locale)
    decreases a, 0
  {
    if x.Directory? && y.Directory? {
      TraversedIsDeterministic(x, y, locale);
    }
  }

  /** The digest depends on the tree alone, not on the order in which the file system lists it. */
  lemma {:induction false} TraversedIsDeterministic(a: Entry, b: Entry, locale: Locale)
    requires locale.IsOrder() && locale.Discriminates()
    requires a.Directory? && b.Directory? && WellNamed(a) && WellNamed(b) && Similar(a, b)
    ensures Traversed(a, locale) == Traversed(b, locale)
    decreases a, |a.entries| + 1
  {
    SortKeeps(a.entries, locale);
    SortKeeps(b.entries, locale);
    SortOrdered(a.entries, locale);
    SortOrdered(b.entries, locale);
    var xs, ys := Sort(a.entries, locale), Sort(b.entries, locale);
    AlignSimilar(xs, ys, a, b, locale);
    SameWalk(xs, ys, a, b, locale);
  }

  // ---- Ties

  function Pair(first: Entry, second: Entry): Entry {
    Directory("", [first, second])
  }

  /** Two names that compare equal keep their listing order, and the stream shows it. */
  lemma TieShows(a: string, b: string, locale: Locale)
    requires locale.IsOrder() && locale.Le(a, b) && locale.Le(b, a) && a != b
    ensures var x, y := File(a, [0]), File(b, [1]);
            && WellNamed(Pair(x, y)) && WellNamed(Pair(y, x)) && Similar(Pair(x, y), Pair(y, x))
            && Traversed(Pair(x, y), locale) != Traversed(Pair(y, x), locale)
  {
    var x, y := File(a, [0]), File(b, [1]);
    TiedPair(x, y, locale);
    TiedPair(y, x, locale);
    assert Similar(x, x) && Similar(y, y);
    PairsAreSimilar(x, y);
    PairsAreSimilar(y, x);
    var first, second := Traversed(Pair(x, y), locale).stream, Traversed(Pair(y, x), locale).stream;
    assert first[|first| - 1] == 1 && second[|second| - 1] == 0;
  }

  lemma PairsAreSimilar(x: Entry, y: Entry)
    requires x.File? && y.File? && x.name != y.name
    ensures WellNamed(Pair(x, y)) && Similar(Pair(x, y), Pair(y, x))
  {
    var a, b := Pair(x, y), Pair(y, x);
    assert a.entries == [x, y] && b.entries == [y, x];
    assert Similar(x, x) && Similar(y, y);
    forall e | e in a.entries ensures Any(b.entries, f => Similar(e, f)) {
      AnyFrom(b.entries, f => Similar(e, f), e);
    }
    forall f | f in b.entries ensures Any(a.entries, e => e in a.entries && Similar(e, f)) {
      AnyFrom(a.entries, e => e in a.entries && Similar(e, f), f);
    }
  }

  lemma TiedPair(x: Entry, y: Entry, locale: Locale)
    requires x.File? && y.File? && locale.Le(x.name, y.name)
    ensures Traversed(Pair(x, y), locale).stream ==
              locale.encode(x.name) + x.content + (locale.encode(y.name) + y.content)
  {
    var entries := [x, y];
    assert entries[1..] == [y] && [y][1..] == [];
    assert Sort([y], locale) == [y];
    assert Sort(entries, locale) == [x, y];
    var pair := Pair(x, y);
    assert x in pair.entries && y in pair.entries;
    assert [x, y][0] == x && [x, y][1..] == [y];
    var only := Visit(y, pair, locale);
    assert Walk([y], pair, locale) == Plus(only, NOTHING);
    PlusNothing(only);
    assert Walk([x, y], pair, locale) == Plus(Visit(x, pair, locale), only);
    assert Traversed(pair, locale) == Walk([x, y], pair, locale);
  }

  ghost predicate SameTree(a: Entry, b: Entry) {
    a.Directory? && b.Directory? && WellNamed(a) && WellNamed(b) && Similar(a, b)
  }

  /** The digest is independent of the listing order for every tree exactly when no two names tie. */
  lemma DeterministicIff(locale: Locale)
    requires locale.IsOrder()
    ensures locale.Discriminates() <==> forall a, b | SameTree(a, b) :: Traversed(a, locale) == Traversed(b, locale)
  {
    if locale.Discriminates() {
      forall a, b | SameTree(a, b) ensures Traversed(a, locale) == Traversed(b, locale) {
        TraversedIsDeterministic(a, b, locale);
      }
    } else {
      var a, b :| locale.Le(a, b) && locale.Le(b, a) && a != b;
      TieShows(a, b, locale);
      var x, y := File(a, [0]), File(b, [1]);
      assert SameTree(Pair(x, y), Pair(y, x));
    }
  }
}
