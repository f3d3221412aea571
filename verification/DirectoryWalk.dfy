/**
 The iterator over the files with allowed extensions under a directory.

 The file system is a finite tree that does not change during the walk.
 */
module DirectoryWalk {
  import opened Common

  type Path = seq<string>

  /** What is at a path; a directory may be unreadable, and so may single entries of one. */
  datatype Node = File | Other | Directory(entries: seq<Entry>) | UnreadableDirectory
  datatype Entry = Entry(name: string, node: Node) | Unreadable

  datatype Place = Place(path: Path, node: Node)

  // ---------------------------------------------------------------- extensions

  // The place of the last dot.
  function LastDot(name: string): (r: Option<nat>)
    ensures r.Some? ==> r.value < |name| && name[r.value] == '.'
  {
    if name == "" then None
    else if name[|name| - 1] == '.' then Some(|name| - 1)
    else LastDot(name[..|name| - 1])
  }

  // What follows the last dot of a name that has something in front of it.
  function Extension(name: string): Option<string> {
    var dot := LastDot(name);
    if dot.None? || dot.value == 0 || name == ".." then None else Some(name[dot.value + 1..])
  }

  function Lower(c: char): char {
    if 'A' <= c <= 'Z' then c - 'A' + 'a' else c
  }

  predicate EqualIgnoringCase(a: string, b: string) {
    |a| == |b| && forall i | 0 <= i < |a| :: Lower(a[i]) == Lower(b[i])
  }

  predicate Allowed(name: string, extensions: set<string>) {
    Extension(name).Some? && exists e <- extensions :: EqualIgnoringCase(Extension(name).value, e)
  }

  lemma {:induction false} LastDotOf(stem: string, extension: string)
    requires '.' !in extension
    ensures LastDot(stem + "." + extension) == Some(|stem|)
    ensures LastDot(extension) == None
    decreases |extension|
  {
    var name := stem + "." + extension;
    if extension == "" {
      assert name == stem + ".";
    } else {
      var n := |extension| - 1;
      assert extension[n] in extension && name[|name| - 1] == extension[n];
      assert name[..|name| - 1] == stem + "." + extension[..n];
      LastDotOf(stem, extension[..n]);
    }
  }

  lemma {:induction false} NoDotBehind(name: string)
    ensures LastDot(name).None? ==> '.' !in name
    ensures LastDot(name).Some? ==> '.' !in name[LastDot(name).value + 1..]
    decreases |name|
  {
    if name != "" && name[|name| - 1] != '.' {
      var n := |name| - 1;
      NoDotBehind(name[..n]);
      assert name == name[..n] + [name[n]];
      if LastDot(name).Some? {
        assert name[LastDot(name).value + 1..] == name[..n][LastDot(name).value + 1..] + [name[n]];
      }
    }
  }

  /** The extension of a name is what stands behind its last dot, if something stands in front of the dot
      and the name is not that of the parent directory. */
  lemma ExtensionIsBehindLastDot(name: string, extension: string)
    ensures Extension(name) == Some(extension) <==>
      name != ".." && '.' !in extension && exists stem :: stem != "" && name == stem + "." + extension
  {
    NoDotBehind(name);
    if Extension(name) == Some(extension) {
      var stem := name[..LastDot(name).value];
      assert stem != "" && name == stem + "." + extension;
    }
    if stem :| stem != "" && name == stem + "." + extension && '.' !in extension {
      LastDotOf(stem, extension);
      assert name[|stem| + 1..] == extension;
    }
  }

  // The same character, or the same letter of the alphabet in two cases.
  predicate SameLetter(a: char, b: char) {
    || a == b
    || ('A' <= a <= 'Z' && b as int == a as int + 32)
    || ('A' <= b <= 'Z' && a as int == b as int + 32)
  }

  /** Extensions are compared without regard to the case of ASCII letters. */
  lemma CaseIsIgnored(a: string, b: string)
    ensures EqualIgnoringCase(a, b) <==> |a| == |b| && forall i | 0 <= i < |a| :: SameLetter(a[i], b[i])
  {
    if |a| == |b| {
      forall i | 0 <= i < |a|
        ensures Lower(a[i]) == Lower(b[i]) <==> SameLetter(a[i], b[i])
      {
        SameLower(a[i], b[i]);
      }
    }
  }

  lemma SameLower(a: char, b: char)
    ensures Lower(a) == Lower(b) <==> SameLetter(a, b)
  {
    assert Lower(a) as int == if 'A' <= a <= 'Z' then a as int + 32 else a as int;
    assert Lower(b) as int == if 'A' <= b <= 'Z' then b as int + 32 else b as int;
  }

  // ---------------------------------------------------------------- what the walk should find

  /** The files with allowed extensions under a place, through readable directories. */
  function FilesUnder(place: Place, extensions: set<string>): multiset<Path>
    decreases place.node, 1
  {
    if place.node.Directory? then
      FilesOfEntries(place.path, place.node.entries, extensions)
    else multiset{}
  }

  function FilesOfEntries(path: Path, entries: seq<Entry>, extensions: set<string>): multiset<Path>
    decreases entries, 0
  {
    if entries == [] then multiset{}
    else FilesOfEntries(path, entries[..|entries| - 1], extensions) + FilesOfEntry(path, entries[|entries| - 1], extensions)
  }

  function FilesOfEntry(path: Path, entry: Entry, extensions: set<string>): multiset<Path>
    decreases entry, 0
  {
    match entry
    case Unreadable => multiset{}
    case Entry(name, node) =>
      if node.File? && Allowed(name, extensions) then multiset{path + [name]}
      else FilesUnder(Place(path + [name], node), extensions)
  }

  function FilesUnderAll(places: seq<Place>, extensions: set<string>): multiset<Path> {
    if places == [] then multiset{}
    else FilesUnderAll(places[..|places| - 1], extensions) + FilesUnder(places[|places| - 1], extensions)
  }

  // The work a place still is.
  function Size(node: Node): nat
    decreases node, 1
  {
    if node.Directory? then 1 + SizeOfEntries(node.entries) else 1
  }

  function SizeOfEntries(entries: seq<Entry>): nat
    decreases entries, 0
  {
    if entries == [] then 0 else SizeOfEntries(entries[..|entries| - 1]) + SizeOfEntry(entries[|entries| - 1])
  }

  function SizeOfEntry(entry: Entry): nat
    decreases entry, 0
  {
    match entry
    case Unreadable => 0
    case Entry(_, node) => Size(node)
  }

  function SizeOfAll(places: seq<Place>): nat {
    if places == [] then 0 else SizeOfAll(places[..|places| - 1]) + Size(places[|places| - 1].node)
  }

  // ---------------------------------------------------------------- the iterator

  class FilesWithExtensionIterator {
    var allowedExtensions: set<string>
    var directoriesToSearch: seq<Place>
    var filesMatching: seq<Path>

    constructor (root: Place)
      ensures allowedExtensions == {} && directoriesToSearch == [root] && filesMatching == []
    {
      allowedExtensions, directoriesToSearch, filesMatching := {}, [root], [];
    }

    method WithAllowedExtension(extension: string)
      modifies this`allowedExtensions
      ensures allowedExtensions == old(allowedExtensions) + {extension}
    {
      allowedExtensions := allowedExtensions + {extension};
    }

    /** All that is still to be yielded. */
    ghost function Remaining(): multiset<Path>
      reads this
    {
      multiset(filesMatching) + FilesUnderAll(directoriesToSearch, allowedExtensions)
    }

    /** Yields one of the remaining files, the last found first; none when nothing remains. */
    method Next() returns (r: Option<Path>)
      modifies this
      ensures allowedExtensions == old(allowedExtensions)
      ensures old(Remaining()) == Remaining() + Yielded(r)
      ensures r.None? ==> Remaining() == multiset{}
      ensures old(filesMatching) != [] ==>
        && r == Some(old(filesMatching)[|old(filesMatching)| - 1])
        && filesMatching == old(filesMatching)[..|old(filesMatching)| - 1]
        && directoriesToSearch == old(directoriesToSearch)
      decreases SizeOfAll(directoriesToSearch)
    {
      if filesMatching != [] {
        var n := |filesMatching| - 1;
        r := Some(filesMatching[n]);
        assert filesMatching == filesMatching[..n] + [filesMatching[n]];
        filesMatching := filesMatching[..n];
        return;
      }
      if directoriesToSearch == [] {
        return None;
      }
      SearchNextDirectory();
      r := Next();
    }

    /** Takes the directory found last off those to search; one that cannot be read holds nothing. */
    method SearchNextDirectory()
      requires directoriesToSearch != []
      modifies this`directoriesToSearch, this`filesMatching
      ensures Remaining() == old(Remaining())
      ensures SizeOfAll(directoriesToSearch) < SizeOfAll(old(directoriesToSearch))
    {
      var n := |directoriesToSearch| - 1;
      var directory := directoriesToSearch[n];
      directoriesToSearch := directoriesToSearch[..n];
      if directory.node.Directory? {
        SearchEntries(directory.path, directory.node.entries);
      }
    }

    /** Sorts the entries of a directory into files to yield and directories to search. */
    method SearchEntries(path: Path, entries: seq<Entry>)
      modifies this`directoriesToSearch, this`filesMatching
      ensures Remaining() == old(Remaining()) + FilesOfEntries(path, entries, allowedExtensions)
      ensures SizeOfAll(directoriesToSearch) <= SizeOfAll(old(directoriesToSearch)) + SizeOfEntries(entries)
    {
      var i := 0;
      while i < |entries|
        invariant i <= |entries|
        invariant Remaining() == old(Remaining()) + FilesOfEntries(path, entries[..i], allowedExtensions)
        invariant SizeOfAll(directoriesToSearch) <= SizeOfAll(old(directoriesToSearch)) + SizeOfEntries(entries[..i])
      {
        assert entries[..i + 1][..i] == entries[..i];
        SearchEntry(path, entries[i]);
        i := i + 1;
      }
      assert entries[..i] == entries;
    }

    method SearchEntry(path: Path, entry: Entry)
      modifies this`directoriesToSearch, this`filesMatching
      ensures Remaining() == old(Remaining()) + FilesOfEntry(path, entry, allowedExtensions)
      ensures SizeOfAll(directoriesToSearch) <= SizeOfAll(old(directoriesToSearch)) + SizeOfEntry(entry)
    {
      match entry {
        case Unreadable =>
        case Entry(name, node) =>
          var found := path + [name];
          if node.Directory? || node.UnreadableDirectory? {
            ghost var before := directoriesToSearch;
            directoriesToSearch := directoriesToSearch + [Place(found, node)];
            assert directoriesToSearch[..|before|] == before;
          } else if node.File? && Allowed(name, allowedExtensions) {
            filesMatching := filesMatching + [found];
          }
      }
    }

    /** Runs the iterator to its end: everything that remained comes out, each file as often as it
        was there. */
    method Collect() returns (files: seq<Path>)
      modifies this
      ensures multiset(files) == old(Remaining())
      ensures Remaining() == multiset{}
    {
      files := [];
      ghost var all, left := Remaining(), Remaining();
      var next := Next();
      while next.Some?
        invariant left == Remaining() + Yielded(next) && all == multiset(files) + left
        invariant next.None? ==> Remaining() == multiset{}
        decreases |left|
      {
        Moved(all, files, next.value, Remaining());
        files := files + [next.value];
        left := Remaining();
        next := Next();
      }
    }
  }

  lemma Moved(all: multiset<Path>, files: seq<Path>, file: Path, left: multiset<Path>)
    requires all == multiset(files) + (left + multiset{file})
    ensures all == multiset(files + [file]) + left
    ensures |left + multiset{file}| > |left|
  {
  }

  function Yielded(next: Option<Path>): multiset<Path> {
    if next.None? then multiset{} else multiset{next.value}
  }

  // ---------------------------------------------------------------- each file once

  /** A file with an allowed extension lies at `way` below the node, through readable directories. */
  ghost predicate Lies(node: Node, way: Path, extensions: set<string>)
    decreases |way|
  {
    && node.Directory? && way != []
    && exists e <- node.entries :: LiesAt(e, way, extensions)
  }

  ghost predicate LiesAt(e: Entry, way: Path, extensions: set<string>)
    requires way != []
    decreases |way|, 0
  {
    && e.Entry? && e.name == way[0]
    && (if |way| == 1 then e.node.File? && Allowed(way[0], extensions) else Lies(e.node, way[1..], extensions))
  }

  /** No two entries of a directory have one name. */
  ghost predicate NamesDistinct(node: Node)
    decreases node
  {
    node.Directory? ==>
      && DistinctEntries(node.entries)
      && forall e <- node.entries | e.Entry? :: NamesDistinct(e.node)
  }

  predicate DistinctEntries(entries: seq<Entry>) {
    forall i, j | 0 <= i < j < |entries| && entries[i].Entry? && entries[j].Entry? :: entries[i].name != entries[j].name
  }

  lemma {:induction false} FoundBelow(place: Place, extensions: set<string>, p: Path)
    requires p in FilesUnder(place, extensions)
    ensures |place.path| < |p| && p[..|place.path|] == place.path
    decreases place.node, 1
  {
    FoundBelowEntries(place.path, place.node.entries, extensions, p);
  }

  lemma {:induction false} FoundBelowEntries(path: Path, entries: seq<Entry>, extensions: set<string>, p: Path)
    requires p in FilesOfEntries(path, entries, extensions)
    ensures |path| < |p| && p[..|path|] == path
    decreases entries, 0
  {
    var n := |entries| - 1;
    if p in FilesOfEntries(path, entries[..n], extensions) {
      FoundBelowEntries(path, entries[..n], extensions, p);
    } else {
      FoundBelowEntry(path, entries[n], extensions, p);
    }
  }

  lemma {:induction false} FoundBelowEntry(path: Path, entry: Entry, extensions: set<string>, p: Path)
    requires p in FilesOfEntry(path, entry, extensions)
    ensures |path| < |p| && p[..|path|] == path && entry.Entry? && p[|path|] == entry.name
    decreases entry, 0
  {
    var found := path + [entry.name];
    if !(entry.node.File? && Allowed(entry.name, extensions)) {
      FoundBelow(Place(found, entry.node), extensions, p);
      assert p[..|path|] == p[..|found|][..|path|] && p[|path|] == p[..|found|][|path|];
    }
  }

  /** Every file that lies below a directory is found there exactly once, and nothing else is. */
  lemma {:induction false} EachFileOnce(place: Place, extensions: set<string>, way: Path)
    requires NamesDistinct(place.node)
    ensures FilesUnder(place, extensions)[place.path + way] == if Lies(place.node, way, extensions) then 1 else 0
    decreases place.node, 1
  {
    if place.node.Directory? {
      var entries := place.node.entries;
      if way == [] {
        if place.path + way in FilesOfEntries(place.path, entries, extensions) {
          FoundBelowEntries(place.path, entries, extensions, place.path + way);
        }
      } else {
        EachFileOnceInEntries(place.path, entries, extensions, way);
      }
    }
  }

  lemma {:induction false} EachFileOnceInEntries(path: Path, entries: seq<Entry>, extensions: set<string>, way: Path)
    requires DistinctEntries(entries) && (forall e <- entries | e.Entry? :: NamesDistinct(e.node)) && way != []
    ensures FilesOfEntries(path, entries, extensions)[path + way]
         == if exists e <- entries :: LiesAt(e, way, extensions) then 1 else 0
    decreases entries, 1
  {
    if entries != [] {
      var n := |entries| - 1;
      var init, last := entries[..n], entries[n];
      EachFileOnceInEntries(path, init, extensions, way);
      EachFileOnceInEntry(path, last, extensions, way);
      assert entries == init + [last];
      if LiesAt(last, way, extensions) {
        assert forall e <- init :: !LiesAt(e, way, extensions);
      }
    }
  }

  lemma {:induction false} EachFileOnceInEntry(path: Path, entry: Entry, extensions: set<string>, way: Path)
    requires (entry.Entry? ==> NamesDistinct(entry.node)) && way != []
    ensures FilesOfEntry(path, entry, extensions)[path + way] == if LiesAt(entry, way, extensions) then 1 else 0
    decreases entry, 2
  {
    if entry.Entry? {
      var found := path + [entry.name];
      if entry.name != way[0] {
        if path + way in FilesOfEntry(path, entry, extensions) {
          FoundBelowEntry(path, entry, extensions, path + way);
        }
      } else {
        assert path + way == found + way[1..];
        EachFileOnce(Place(found, entry.node), extensions, way[1..]);
        if |way| == 1 {
          assert path + way == found;
        } else {
          assert path + way != found by {
            assert |path + way| != |found|;
          }
        }
      }
    }
  }

  /** The files with one of the extensions below a directory: each as often as it lies there, so once
      when no two entries of a directory have one name. */
  method FilesWithExtensions(root: Place, extensions: seq<string>) returns (files: seq<Path>)
    ensures var allowed := set e | e in extensions;
      && multiset(files) == FilesUnder(root, allowed)
      && (NamesDistinct(root.node) ==>
            forall way: Path :: multiset(files)[root.path + way] == if Lies(root.node, way, allowed) then 1 else 0)
  {
    var walk := new FilesWithExtensionIterator(root);
    var i := 0;
    while i < |extensions|
      invariant i <= |extensions| && fresh(walk)
      invariant walk.allowedExtensions == set e | e in extensions[..i]
      invariant walk.directoriesToSearch == [root] && walk.filesMatching == []
    {
      assert extensions[..i + 1] == extensions[..i] + [extensions[i]];
      walk.WithAllowedExtension(extensions[i]);
      i := i + 1;
    }
    assert extensions[..i] == extensions;
    ghost var allowed := set e | e in extensions;
    OnlyRoot(root, allowed);
    files := walk.Collect();
    if NamesDistinct(root.node) {
      forall way: Path
        ensures FilesUnder(root, allowed)[root.path + way] == if Lies(root.node, way, allowed) then 1 else 0
      {
        EachFileOnce(root, allowed, way);
      }
    }
  }

  lemma OnlyRoot(root: Place, extensions: set<string>)
    ensures FilesUnderAll([root], extensions) == FilesUnder(root, extensions)
  {
    assert [root][..0] == [];
  }
}
