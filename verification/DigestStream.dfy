/** What the directory digest hashes: the names and contents of the files in a row, with nothing between them. */
module DigestStream {
  import opened Common
  import opened DirectoryDigest

  datatype NamedFile = NamedFile(name: string, content: Bytes)

  /** The files in the order they are hashed. */
  function FlatWalk(list: seq<Entry>, within: Entry, locale: Locale): seq<NamedFile>
    requires within.Directory? && forall e | e in list :: e in within.entries
    decreases within, |list|
  {
    if list == [] then [] else FlatVisit(list[0], within, locale) + FlatWalk(list[1..], within, locale)
  }

  function FlatVisit(e: Entry, within: Entry, locale: Locale): seq<NamedFile>
    requires within.Directory? && e in within.entries
    decreases within, 0
  {
    match e
    case File(name, content) => [NamedFile(name, content)]
    case Directory(name, _) => if IsSkipped(name) then [] else Flat(e, locale)
    case Other(_) => []
  }

  function Flat(directory: Entry, locale: Locale): seq<NamedFile>
    requires directory.Directory?
    decreases directory, |directory.entries| + 1
  {
    SortKeeps(directory.entries, locale);
    FlatWalk(Sort(directory.entries, locale), directory, locale)
  }

  function Joined(files: seq<NamedFile>, locale: Locale): Bytes {
    if files == [] then []
    else locale.encode(files[0].name) + files[0].content + Joined(files[1..], locale)
  }

  function Summed(files: seq<NamedFile>): nat {
    if files == [] then 0 else |files[0].content| + Summed(files[1..])
  }

  function OutputOf(files: seq<NamedFile>, locale: Locale): Output {
    Output(|files|, Summed(files), Joined(files, locale))
  }

  lemma {:induction false} OutputAppend(a: seq<NamedFile>, b: seq<NamedFile>, locale: Locale)
    ensures OutputOf(a + b, locale) == Plus(OutputOf(a, locale), OutputOf(b, locale))
  {
    if a == [] {
      assert a + b == b && [] + Joined(b, locale) == Joined(b, locale);
    } else {
      var first, rest := a[0], a[1..];
      assert (a + b)[0] == first && (a + b)[1..] == rest + b;
      OutputAppend(rest, b, locale);
      Regroup(locale.encode(first.name) + first.content, Joined(rest, locale), Joined(b, locale));
    }
  }

  lemma {:induction false} WalkIsFlat(list: seq<Entry>, within: Entry, locale: Locale)
    requires within.Directory? && forall e | e in list :: e in within.entries
    ensures Walk(list, within, locale) == OutputOf(FlatWalk(list, within, locale), locale)
    decreases within, |list|
  {
    if list != [] {
      VisitIsFlat(list[0], within, locale);
      WalkIsFlat(list[1..], within, locale);
      OutputAppend(FlatVisit(list[0], within, locale), FlatWalk(list[1..], within, locale), locale);
    }
  }

  lemma {:induction false} VisitIsFlat(e: Entry, within: Entry, locale: Locale)
    requires within.Directory? && e in within.entries
    ensures Visit(e, within, locale) == OutputOf(FlatVisit(e, within, locale), locale)
    decreases within, 0
  {
    match e
    case File(name, content) => OneFile(NamedFile(name, content), locale);
    case Directory(name, _) =>
      if !IsSkipped(name) {
        TraversedIsFlat(e, locale);
      }
    case Other(_) =>
  }

  lemma OneFile(file: NamedFile, locale: Locale)
    ensures OutputOf([file], locale) == Output(1, |file.content|, locale.encode(file.name) + file.content)
  {
    var files := [file];
    assert files[1..] == [];
    assert Summed(files) == |file.content| + Summed([]) && Joined(files, locale) ==
             locale.encode(file.name) + file.content + Joined([], locale);
    assert locale.encode(file.name) + file.content + [] == locale.encode(file.name) + file.content;
  }

  /** The recursive traversal hashes the flat list of files. */
  lemma {:induction false} TraversedIsFlat(directory: Entry, locale: Locale)
    requires directory.Directory?
    ensures Traversed(directory, locale) == OutputOf(Flat(directory, locale), locale)
    decreases directory, |directory.entries| + 1
  {
    SortKeeps(directory.entries, locale);
    WalkIsFlat(Sort(directory.entries, locale), directory, locale);
  }

  /** Two trees have one stream exactly when their names and contents, run together, are the same bytes. */
  lemma SameStreamIff(a: Entry, b: Entry, locale: Locale)
    requires a.Directory? && b.Directory?
    ensures Traversed(a, locale).stream == Traversed(b, locale).stream <==>
              Joined(Flat(a, locale), locale) == Joined(Flat(b, locale), locale)
  {
    TraversedIsFlat(a, locale);
    TraversedIsFlat(b, locale);
  }

  /** Same names, and contents of the same lengths. */
  ghost predicate SameShape(a: seq<NamedFile>, b: seq<NamedFile>) {
    |a| == |b| && forall i | 0 <= i < |a| :: a[i].name == b[i].name && |a[i].content| == |b[i].content|
  }

  lemma {:induction false} JoinedDecides(a: seq<NamedFile>, b: seq<NamedFile>, locale: Locale)
    requires SameShape(a, b)
    ensures Joined(a, locale) == Joined(b, locale) <==> a == b
  {
    if a != [] {
      var x, y := a[0], b[0];
      assert a == [x] + a[1..] && b == [y] + b[1..];
      JoinedDecides(a[1..], b[1..], locale);
      SameParts(locale.encode(x.name), x.content, Joined(a[1..], locale),
                locale.encode(y.name), y.content, Joined(b[1..], locale));
    }
  }

  lemma SameParts(a: Bytes, b: Bytes, c: Bytes, x: Bytes, y: Bytes, z: Bytes)
    requires |a| == |x| && |b| == |y|
    ensures a + b + c == x + y + z <==> a == x && b == y && c == z
  {
    var l, r := a + b + c, x + y + z;
    if l == r {
      assert l[..|a|] == a && r[..|a|] == x;
      assert l[|a|..|a| + |b|] == b && r[|a|..|a| + |b|] == y;
      assert l[|a| + |b|..] == c && r[|a| + |b|..] == z;
    }
  }

  /** As long as no file is renamed, added, removed or resized, the stream changes with every content. */
  lemma StreamDecidesContents(a: Entry, b: Entry, locale: Locale)
    requires a.Directory? && b.Directory? && SameShape(Flat(a, locale), Flat(b, locale))
    ensures Traversed(a, locale).stream == Traversed(b, locale).stream <==> Flat(a, locale) == Flat(b, locale)
  {
    SameStreamIff(a, b, locale);
    JoinedDecides(Flat(a, locale), Flat(b, locale), locale);
  }

  // ---- Different trees with one stream

  lemma OnlyEntry(e: Entry, name: string, locale: Locale)
    ensures Flat(Directory(name, [e]), locale) == FlatVisit(e, Directory(name, [e]), locale)
  {
    var d := Directory(name, [e]);
    SortKeeps(d.entries, locale);
    assert [e][1..] == [] && Sort([], locale) == [];
    assert Sort([e], locale) == [e];
    assert FlatWalk([e], d, locale) == FlatVisit(e, d, locale) + [];
  }

  lemma OneFileFlat(top: string, name: string, content: Bytes, locale: Locale)
    ensures Joined(Flat(Directory(top, [File(name, content)]), locale), locale) == locale.encode(name) + content
  {
    OnlyEntry(File(name, content), top, locale);
    OneFile(NamedFile(name, content), locale);
  }

  /** Two directories of one file share a stream exactly when name and content together are the same bytes. */
  lemma OneFileEachIff(top: string, a: string, x: Bytes, b: string, y: Bytes, locale: Locale)
    ensures Traversed(Directory(top, [File(a, x)]), locale).stream ==
            Traversed(Directory(top, [File(b, y)]), locale).stream
       <==> locale.encode(a) + x == locale.encode(b) + y
  {
    SameStreamIff(Directory(top, [File(a, x)]), Directory(top, [File(b, y)]), locale);
    OneFileFlat(top, a, x, locale);
    OneFileFlat(top, b, y, locale);
  }

  /** A file "a" that holds "bc" and a file "ab" that holds "c", wherever the encoding goes letter by letter. */
  lemma BoundaryWitness(top: string, locale: Locale)
    requires locale.encode("a") == [97] && locale.encode("ab") == [97, 98]
    ensures Directory(top, [File("a", [98, 99])]) != Directory(top, [File("ab", [99])])
    ensures Traversed(Directory(top, [File("a", [98, 99])]), locale).stream ==
            Traversed(Directory(top, [File("ab", [99])]), locale).stream
  {
    var one: Bytes, two: Bytes, three: Bytes := [98, 99], [99], [97, 98, 99];
    assert |"a"| != |"ab"|;
    assert locale.encode("a") + one == three && locale.encode("ab") + two == three;
    OneFileEachIff(top, "a", one, "ab", two, locale);
  }

  /** The name of a directory is not hashed: renaming one, unless it is or becomes a skipped one, goes unnoticed. */
  lemma DirectoryNamesAreNotHashed(top: string, a: string, b: string, entries: seq<Entry>, locale: Locale)
    requires !IsSkipped(a) && !IsSkipped(b)
    ensures Traversed(Directory(top, [Directory(a, entries)]), locale) ==
            Traversed(Directory(top, [Directory(b, entries)]), locale)
  {
    TraversedIsFlat(Directory(top, [Directory(a, entries)]), locale);
    TraversedIsFlat(Directory(top, [Directory(b, entries)]), locale);
    OnlyEntry(Directory(a, entries), top, locale);
    OnlyEntry(Directory(b, entries), top, locale);
    SortKeeps(entries, locale);
    SameEntriesFlat(Directory(a, entries), Directory(b, entries), Sort(entries, locale), locale);
  }

  lemma {:induction false} SameEntriesFlat(x: Entry, y: Entry, list: seq<Entry>, locale: Locale)
    requires x.Directory? && y.Directory? && x.entries == y.entries && forall e | e in list :: e in x.entries
    ensures FlatWalk(list, x, locale) == FlatWalk(list, y, locale)
    decreases |list|
  {
    if list != [] {
      SameEntriesFlat(x, y, list[1..], locale);
    }
  }
}
