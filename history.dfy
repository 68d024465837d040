/**
  The capture history: saved captures are PNG files in one directory. A
  `HistoryItem` names one of them with its creation time. Loading lists the
  directory, keeps the visible `.png` files whose creation date can be read,
  sorts them newest first and keeps at most 25; loading an image and
  deleting an item first check that the file is still there; deleting
  everything deletes what loading returns, ignoring individual failures.

  The file system is a value, `Directory`, which the operations read and
  (for deletion) return changed.
 */
module History {
  import opened Wrappers
  import opened Sequences
  import EditOperations

  /** A `Date`, as seconds on a line: only its order is used. */
  type Timestamp = real

  datatype HistoryItem = HistoryItem(id: EditOperations.Uuid, timestamp: Timestamp, filePath: string)

  /** `<` on history items: by timestamp alone. */
  predicate Older(a: HistoryItem, b: HistoryItem) {
    a.timestamp < b.timestamp
  }

  /** `<` is a strict order that ignores the id and the path. */
  lemma OlderIsStrictOrder(a: HistoryItem, b: HistoryItem, c: HistoryItem)
    ensures !Older(a, a)
    ensures Older(a, b) ==> !Older(b, a)
    ensures Older(a, b) && Older(b, c) ==> Older(a, c)
    ensures a.timestamp == b.timestamp ==> (Older(a, c) <==> Older(b, c)) && (Older(c, a) <==> Older(c, b))
  {
  }

  /**
    `fileName`: "capture_", the timestamp as `yyyyMMdd_HHmmss`, ".png". The
    date rendering is a parameter (`DateFormatter` in the local time zone).
   */
  function FileName(timestamp: Timestamp, formatDate: Timestamp -> string): (name: string)
    ensures |name| >= 12
    ensures name[..8] == "capture_" && name[|name| - 4..] == ".png"
    ensures name[8..|name| - 4] == formatDate(timestamp)
  {
    "capture_" + formatDate(timestamp) + ".png"
  }

  // ---------------------------------------------------------------------------
  // Paths
  // ---------------------------------------------------------------------------

  /** Where the extension's dot is: the last '.' of the last path component. */
  function ExtensionDot(path: string): (r: Option<nat>)
    ensures r.Some? ==> r.value < |path| && path[r.value] == '.'
    ensures r.Some? ==> forall i :: r.value < i < |path| ==> path[i] != '.' && path[i] != '/'
    decreases |path|
  {
    if path == [] then None
    else if Last(path) == '.' then Some(|path| - 1)
    else if Last(path) == '/' then None
    else ExtensionDot(DropLast(path))
  }

  /** `pathExtension`: what follows that dot, or "" without one. */
  function PathExtension(path: string): string {
    match ExtensionDot(path)
    case None => ""
    case Some(k) => path[k + 1..]
  }

  /** Whatever the date renders as, a saved capture has extension "png", so loading lists it. */
  lemma FileNameHasPngExtension(directory: string, timestamp: Timestamp, formatDate: Timestamp -> string)
    ensures PathExtension(directory + "/" + FileName(timestamp, formatDate)) == "png"
  {
    var path := directory + "/" + FileName(timestamp, formatDate);
    var k := |path| - 4;
    assert path[k..] == ".png";
    var p1 := DropLast(path);
    var p2 := DropLast(p1);
    var p3 := DropLast(p2);
    assert Last(path) == 'g' && Last(p1) == 'n' && Last(p2) == 'p' && Last(p3) == '.';
    assert |p3| == k + 1;
    assert ExtensionDot(p3) == Some(k);
    assert ExtensionDot(p2) == ExtensionDot(p3);
    assert ExtensionDot(p1) == ExtensionDot(p2);
    assert ExtensionDot(path) == ExtensionDot(p1);
    assert path[k + 1..] == "png";
  }

  // ---------------------------------------------------------------------------
  // The directory
  // ---------------------------------------------------------------------------

  /**
    One file of the history directory: its path, whether it is hidden, its
    creation date if it can be read, whether it decodes as an image, and
    whether the file system lets it be removed.
   */
  datatype FileEntry = FileEntry(path: string, hidden: bool, creationDate: Option<Timestamp>, isImage: bool, removable: bool)

  /** The history directory: whether it exists, whether it can be listed, its files in listing order. */
  datatype Directory = Directory(present: bool, listable: bool, files: seq<FileEntry>)

  datatype HistoryError =
    | DirectoryCreationFailed
    | ImageSaveFailed
    | ImageLoadFailed
    | ItemNotFound
    | InvalidImageData
    | FileSystemError   // an error thrown by the file manager itself

  /** At most this many items are loaded; older files stay on disk. */
  const MaxItems: nat := 25

  /** The first file with this path. */
  function FileAt(files: seq<FileEntry>, path: string): (r: Option<FileEntry>)
    ensures r.Some? ==> r.value in files && r.value.path == path
    ensures r.None? <==> forall e :: e in files ==> e.path != path
    decreases |files|
  {
    if files == [] then None
    else if files[0].path == path then Some(files[0])
    else FileAt(files[1..], path)
  }

  /** `fileExists(atPath:)`. */
  predicate FileExists(dir: Directory, path: string) {
    dir.present && FileAt(dir.files, path).Some?
  }

  /** `removeItem(atPath:)` on the listing. */
  function WithoutPath(files: seq<FileEntry>, path: string): (r: seq<FileEntry>)
    ensures forall e :: e in r <==> e in files && e.path != path
    ensures forall q :: q != path ==> FileAt(r, q) == FileAt(files, q)
    ensures forall e :: e in r ==> e.path != path
    decreases |files|
  {
    if files == [] then []
    else if files[0].path == path then WithoutPath(files[1..], path)
    else [files[0]] + WithoutPath(files[1..], path)
  }

  // ---------------------------------------------------------------------------
  // Loading
  // ---------------------------------------------------------------------------

  /** The files `loadHistory` turns into items: visible, extension "png", creation date readable. */
  predicate Listed(e: FileEntry) {
    !e.hidden && PathExtension(e.path) == "png" && e.creationDate.Some?
  }

  /** `filter` then `compactMap`, in listing order; `newId` stands for the `UUID()` each item gets. */
  function Candidates(files: seq<FileEntry>, newId: string -> EditOperations.Uuid): (items: seq<HistoryItem>)
    ensures |items| <= |files|
    ensures forall it :: it in items ==>
      exists e :: e in files && Listed(e) && it == HistoryItem(newId(e.path), e.creationDate.value, e.path)
    ensures forall e :: e in files && Listed(e) ==> HistoryItem(newId(e.path), e.creationDate.value, e.path) in items
    decreases |files|
  {
    if files == [] then []
    else
      var rest := Candidates(files[1..], newId);
      var e := files[0];
      if Listed(e) then [HistoryItem(newId(e.path), e.creationDate.value, e.path)] + rest else rest
  }

  predicate NewestFirst(items: seq<HistoryItem>) {
    forall i, j :: 0 <= i < j < |items| ==> items[j].timestamp <= items[i].timestamp
  }

  function InsertByDate(x: HistoryItem, items: seq<HistoryItem>): (r: seq<HistoryItem>)
    requires NewestFirst(items)
    ensures NewestFirst(r)
    ensures multiset(r) == multiset(items) + multiset{x}
    ensures |r| == |items| + 1
    decreases |items|
  {
    if items == [] || items[0].timestamp <= x.timestamp then
      NewerInFront(x, items);
      [x] + items
    else
      var rest := InsertByDate(x, items[1..]);
      InsertBehindHead(x, items, rest);
      [items[0]] + rest
  }

  /** Inserting behind the head: the head stays in front of the older item and everything after it. */
  lemma InsertBehindHead(x: HistoryItem, items: seq<HistoryItem>, rest: seq<HistoryItem>)
    requires items != [] && x.timestamp < items[0].timestamp && NewestFirst(items)
    requires NewestFirst(rest) && multiset(rest) == multiset(items[1..]) + multiset{x}
    ensures NewestFirst([items[0]] + rest)
    ensures multiset([items[0]] + rest) == multiset(items) + multiset{x}
  {
    assert items == [items[0]] + items[1..];
    forall y | y in rest
      ensures y.timestamp <= items[0].timestamp
    {
      assert y in multiset(rest);
    }
    NewerInFront(items[0], rest);
  }

  /** An item no older than everything in a newest-first list can go in front of it. */
  lemma NewerInFront(h: HistoryItem, rest: seq<HistoryItem>)
    requires NewestFirst(rest)
    requires forall y :: y in rest ==> y.timestamp <= h.timestamp
    ensures NewestFirst([h] + rest)
  {
    var r := [h] + rest;
    forall i, j | 0 <= i < j < |r|
      ensures r[j].timestamp <= r[i].timestamp
    {
      assert r[j] == rest[j - 1];
      if i > 0 {
        assert r[i] == rest[i - 1];
      }
    }
  }

  /** `sorted(by: >)`: newest first. Ties may come out in either order; this is one of them. */
  function SortNewestFirst(items: seq<HistoryItem>): (r: seq<HistoryItem>)
    ensures NewestFirst(r) && multiset(r) == multiset(items) && |r| == |items|
    decreases |items|
  {
    if items == [] then []
    else
      var r := InsertByDate(items[0], SortNewestFirst(items[1..]));
      assert items == [items[0]] + items[1..];
      r
  }

  /** `loadHistory()`. */
  function LoadHistory(dir: Directory, newId: string -> EditOperations.Uuid): (r: Result<seq<HistoryItem>, HistoryError>)
    ensures !dir.present ==> r == Success([])
    ensures r.Failure? <==> dir.present && !dir.listable
  {
    if !dir.present then Success([])
    else if !dir.listable then Failure(FileSystemError)
    else
      var sorted := SortNewestFirst(Candidates(dir.files, newId));
      Success(if |sorted| <= MaxItems then sorted else sorted[..MaxItems])
  }

  /** A prefix of a newest-first list is newest first, and nothing after it is newer than anything in it. */
  lemma NewestPrefix(s: seq<HistoryItem>, n: nat)
    requires NewestFirst(s) && n <= |s|
    ensures NewestFirst(s[..n]) && multiset(s[..n]) <= multiset(s)
    ensures forall c, i :: c in multiset(s) - multiset(s[..n]) && 0 <= i < n ==> c.timestamp <= s[i].timestamp
  {
    SplitMultiset(s, n);
    forall c, i | c in s[n..] && 0 <= i < n
      ensures c.timestamp <= s[i].timestamp
    {
      var k :| 0 <= k < |s[n..]| && s[n..][k] == c;
      assert s[n + k] == c;
    }
  }

  lemma SplitMultiset(s: seq<HistoryItem>, n: nat)
    requires n <= |s|
    ensures multiset(s) - multiset(s[..n]) == multiset(s[n..])
    ensures multiset(s[..n]) <= multiset(s)
  {
    assert s == s[..n] + s[n..];
  }

  /** What `LoadHistory` keeps: the first 25 of the sorted candidates, or all of them when there are fewer. */
  lemma LoadHistoryIsPrefix(dir: Directory, newId: string -> EditOperations.Uuid)
    requires dir.present && dir.listable
    ensures var sorted := SortNewestFirst(Candidates(dir.files, newId));
      var items := LoadHistory(dir, newId).value;
      && |items| == (if |sorted| <= MaxItems then |sorted| else MaxItems)
      && items == sorted[..|items|]
  {
  }

  /**
    What loading returns: at most 25 items, newest first, each one a listed
    file of the directory with its creation date, and no file more often
    than the listing has it.
   */
  lemma LoadHistoryShape(dir: Directory, newId: string -> EditOperations.Uuid)
    requires LoadHistory(dir, newId).Success?
    ensures var items := LoadHistory(dir, newId).value;
      && |items| <= MaxItems && NewestFirst(items)
      && multiset(items) <= multiset(Candidates(dir.files, newId))
      && forall it :: it in items ==>
        exists e :: e in dir.files && Listed(e) && it == HistoryItem(newId(e.path), e.creationDate.value, e.path)
  {
    if dir.present {
      var cands := Candidates(dir.files, newId);
      var sorted := SortNewestFirst(cands);
      var items := LoadHistory(dir, newId).value;
      LoadHistoryIsPrefix(dir, newId);
      NewestPrefix(sorted, |items|);
      FromListing(items, dir.files, newId);
    }
  }

  /** Items drawn from the candidates each come from a listed file. */
  lemma FromListing(items: seq<HistoryItem>, files: seq<FileEntry>, newId: string -> EditOperations.Uuid)
    requires multiset(items) <= multiset(Candidates(files, newId))
    ensures forall it :: it in items ==>
      exists e :: e in files && Listed(e) && it == HistoryItem(newId(e.path), e.creationDate.value, e.path)
  {
    var cands := Candidates(files, newId);
    forall it | it in items
      ensures exists e :: e in files && Listed(e) && it == HistoryItem(newId(e.path), e.creationDate.value, e.path)
    {
      assert it in multiset(items);
      assert it in multiset(cands);
      assert it in cands;
    }
  }

  /** Nothing left out is newer than anything loaded: the 25 kept are the most recent. */
  lemma LoadHistoryKeepsNewest(dir: Directory, newId: string -> EditOperations.Uuid)
    requires LoadHistory(dir, newId).Success?
    ensures var items := LoadHistory(dir, newId).value;
      forall c, i :: c in multiset(Candidates(dir.files, newId)) - multiset(items) && 0 <= i < |items| ==>
        c.timestamp <= items[i].timestamp
  {
    if dir.present {
      var cands := Candidates(dir.files, newId);
      var sorted := SortNewestFirst(cands);
      var items := LoadHistory(dir, newId).value;
      LoadHistoryIsPrefix(dir, newId);
      assert items == sorted[..|items|];
      assert multiset(cands) - multiset(items) == multiset(sorted) - multiset(sorted[..|items|]);
      NewestPrefix(sorted, |items|);
    }
  }

  /** With 25 listed files or fewer, every one of them is loaded. */
  lemma LoadHistoryAllWhenFew(dir: Directory, newId: string -> EditOperations.Uuid)
    requires dir.present && dir.listable && |Candidates(dir.files, newId)| <= MaxItems
    ensures multiset(LoadHistory(dir, newId).value) == multiset(Candidates(dir.files, newId))
  {
  }

  /** `loadImage(for:)`: the file the image is read from. */
  function LoadImage(dir: Directory, item: HistoryItem): (r: Result<FileEntry, HistoryError>)
    ensures r.Failure? ==> r.error == ItemNotFound || r.error == ImageLoadFailed
    ensures r.Failure? && r.error == ItemNotFound <==> !FileExists(dir, item.filePath)
    ensures r.Success? ==> r.value in dir.files && r.value.path == item.filePath && r.value.isImage
  {
    if !FileExists(dir, item.filePath) then Failure(ItemNotFound)
    else
      var e := FileAt(dir.files, item.filePath).value;
      if !e.isImage then Failure(ImageLoadFailed) else Success(e)
  }

  // ---------------------------------------------------------------------------
  // Deleting
  // ---------------------------------------------------------------------------

  /** `deleteItem(_:)`. */
  function DeleteItem(dir: Directory, item: HistoryItem): (r: Result<Directory, HistoryError>)
    ensures !FileExists(dir, item.filePath) ==> r == Failure(ItemNotFound)
    ensures FileExists(dir, item.filePath) && !FileAt(dir.files, item.filePath).value.removable ==>
      r == Failure(FileSystemError)
    ensures r.Success? ==>
      && r.value.present == dir.present && r.value.listable == dir.listable
      && !FileExists(r.value, item.filePath)
      && forall e :: e in r.value.files <==> e in dir.files && e.path != item.filePath
  {
    if !FileExists(dir, item.filePath) then Failure(ItemNotFound)
    else if !FileAt(dir.files, item.filePath).value.removable then Failure(FileSystemError)
    else Success(dir.(files := WithoutPath(dir.files, item.filePath)))
  }

  /** Deleting the same item twice: the second attempt finds nothing. */
  lemma DeleteTwiceNotFound(dir: Directory, item: HistoryItem)
    requires DeleteItem(dir, item).Success?
    ensures DeleteItem(DeleteItem(dir, item).value, item) == Failure(ItemNotFound)
  {
  }

  function Paths(items: seq<HistoryItem>): set<string> {
    set it | it in items :: it.filePath
  }

  /** A file that `deleteAll` removes: one of the loaded paths whose first file the system lets go. */
  predicate Removed(dir: Directory, paths: set<string>, path: string) {
    path in paths && FileAt(dir.files, path).Some? && FileAt(dir.files, path).value.removable
  }

  /**
    `deleteAll()`: load, then delete each loaded item, ignoring the ones that
    fail. Only what loading returned is deleted, so at most the newest 25.
   */
  method DeleteAll(dir: Directory, newId: string -> EditOperations.Uuid) returns (r: Result<Directory, HistoryError>)
    ensures r.Failure? <==> LoadHistory(dir, newId).Failure?
    ensures r.Success? ==>
      var paths := Paths(LoadHistory(dir, newId).value);
      && r.value.present == dir.present && r.value.listable == dir.listable
      && forall e :: e in r.value.files <==> e in dir.files && !Removed(dir, paths, e.path)
  {
    var loaded := LoadHistory(dir, newId);
    if loaded.Failure? {
      return Failure(loaded.error);
    }
    var items := loaded.value;
    assert !dir.present ==> items == [];
    var d := dir;
    var i := 0;
    while i < |items|
      invariant 0 <= i <= |items|
      invariant d.present == dir.present && d.listable == dir.listable
      invariant forall e :: e in d.files <==> e in dir.files && !Removed(dir, Paths(items[..i]), e.path)
      invariant forall q :: !Removed(dir, Paths(items[..i]), q) ==> FileAt(d.files, q) == FileAt(dir.files, q)
    {
      PathsSnoc(items, i);
      var attempt := DeleteItem(d, items[i]);
      DeleteStep(dir, d, Paths(items[..i]), items[i]);
      if attempt.Success? {
        d := attempt.value;
      }
      i := i + 1;
    }
    assert items[..i] == items;
    return Success(d);
  }

  lemma PathsSnoc(items: seq<HistoryItem>, i: nat)
    requires i < |items|
    ensures Paths(items[..i + 1]) == Paths(items[..i]) + {items[i].filePath}
  {
    assert items[..i + 1] == items[..i] + [items[i]];
  }

  /** One `try? deleteItem(item)` keeps the loop's account of what is gone, whether it succeeds or not. */
  lemma DeleteStep(dir: Directory, d: Directory, paths: set<string>, item: HistoryItem)
    requires dir.present && d.present == dir.present && d.listable == dir.listable
    requires forall e :: e in d.files <==> e in dir.files && !Removed(dir, paths, e.path)
    requires forall q :: !Removed(dir, paths, q) ==> FileAt(d.files, q) == FileAt(dir.files, q)
    ensures var d' := if DeleteItem(d, item).Success? then DeleteItem(d, item).value else d;
      var paths' := paths + {item.filePath};
      && d'.present == dir.present && d'.listable == dir.listable
      && (forall e :: e in d'.files <==> e in dir.files && !Removed(dir, paths', e.path))
      && (forall q :: !Removed(dir, paths', q) ==> FileAt(d'.files, q) == FileAt(dir.files, q))
  {
    var p := item.filePath;
    var paths' := paths + {p};
    if Removed(dir, paths, p) {
      assert FileAt(d.files, p).None?;
      assert forall q :: Removed(dir, paths', q) <==> Removed(dir, paths, q);
    } else if DeleteItem(d, item).Success? {
      assert Removed(dir, paths', p);
      assert forall q :: q != p ==> (Removed(dir, paths', q) <==> Removed(dir, paths, q));
    } else {
      assert !Removed(dir, paths', p);
      assert forall q :: Removed(dir, paths', q) <==> Removed(dir, paths, q);
    }
  }
}
