/** The image classifier session: a folder's image files are shown one at a time
    and each is moved into the `OK` or `NG` sub-folder; the last moves can be
    undone in reverse order.

    The session's state is the chosen folder, the ordered list of image paths,
    a cursor into it, the current outcome and a stack of the moves made, each
    remembered as (moved-to path, cursor before the move). Files live in a map
    from path to contents. `Session` is that state as a value and the functions
    below say what each operator action makes of it; `ImageClassifier` holds the
    same state in mutable fields and its methods are proved to follow them. */
module ImgSorter {
  import opened Strings
  import opened Paths

  type Bytes = seq<bv8>
  type FileSystem = map<string, Bytes>

  /** The outcome bucket; the radio buttons can only hold these two values. */
  datatype Status = OK | NG

  function StatusFolder(st: Status): (name: string)
    ensures name == "OK" || name == "NG"
  {
    match st
    case OK => "OK"
    case NG => "NG"
  }

  /** One history record: where the file was moved to and the cursor before the move. */
  datatype Entry = Entry(movedPath: string, prevIndex: nat)

  datatype Session = Session(
    folder: string,
    paths: seq<string>,
    index: nat,
    history: seq<Entry>,
    status: Status,
    fs: FileSystem)

  /** What the window shows: the end message, or the image at `path` with its
      1-based position out of `total`. */
  datatype View = Finished | Showing(path: string, position: nat, total: nat)

  /** A file name the classifier picks up: its lower-cased form ends in one of
      the five image extensions. */
  predicate IsImageName(name: string) {
    var l := Lower(name);
    EndsWith(l, ".png") || EndsWith(l, ".jpg") || EndsWith(l, ".jpeg")
      || EndsWith(l, ".bmp") || EndsWith(l, ".gif")
  }

  /** The image names of a directory listing, in listing order. */
  function ImageNames(names: seq<string>): (r: seq<string>)
    ensures |r| <= |names|
    ensures forall f :: f in r <==> f in names && IsImageName(f)
  {
    if names == [] then []
    else if IsImageName(names[0]) then [names[0]] + ImageNames(names[1..])
    else ImageNames(names[1..])
  }

  function JoinAll(dir: string, names: seq<string>): (r: seq<string>)
    ensures |r| == |names| && forall k :: 0 <= k < |names| ==> r[k] == Join(dir, names[k])
  {
    if names == [] then [] else [Join(dir, names[0])] + JoinAll(dir, names[1..])
  }

  /** `shutil.move(src, dst)` on the file map: the contents go to `dst`
      (replacing what was there) and `src` disappears. A missing source raises,
      which is `None` here. */
  function Move(fs: FileSystem, src: string, dst: string): (r: Option<FileSystem>)
    ensures r.Some? <==> src in fs
  {
    if src in fs then Some(fs - {src} + map[dst := fs[src]]) else None
  }

  /** Python's `list.insert(i, x)` for a non-negative `i`: past the end means append. */
  function Insert(xs: seq<string>, i: nat, x: string): (r: seq<string>)
    ensures |r| == |xs| + 1
  {
    if i >= |xs| then xs + [x] else xs[..i] + [x] + xs[i..]
  }

  /** The state after the constructor, over the files that exist at start. */
  function Initial(fs: FileSystem): Session {
    Session("", [], 0, [], OK, fs)
  }

  /** `select_folder`: the dialog's answer always replaces the folder; a cancelled
      dialog (empty answer) stops there, otherwise the image paths of the
      listing replace the list, the cursor goes back to 0 and the history is
      emptied. */
  function AfterSelectFolder(s: Session, chosen: string, listing: seq<string>): Session {
    if chosen == [] then s.(folder := chosen)
    else s.(folder := chosen, paths := JoinAll(chosen, ImageNames(listing)), index := 0, history := [])
  }

  /** The Left and Right keys. */
  function AfterSetStatus(s: Session, st: Status): Session {
    s.(status := st)
  }

  /** Where classifying `path` moves it: `<folder>/<status>/<basename>`. */
  function Destination(s: Session, path: string): string {
    Join(Join(s.folder, StatusFolder(s.status)), Basename(path))
  }

  /** `classify_image`: nothing when the cursor is past the end; otherwise the
      current file is moved into the status folder, the move is pushed on the
      history and the cursor advances. The path list is left as it is. If the
      move raises, the rest of the handler does not run. */
  function AfterClassify(s: Session): Session {
    if s.index >= |s.paths| then s
    else
      var current := s.paths[s.index];
      var moved := Destination(s, current);
      match Move(s.fs, current, moved)
      case None => s
      case Some(fs') =>
        s.(fs := fs', history := s.history + [Entry(moved, s.index)], index := s.index + 1)
  }

  /** `undo_last`: nothing with an empty history; otherwise the last record is
      popped, its file moved back to `<folder>/<basename>`, that path inserted
      into the list at the recorded cursor and the cursor set to it. If the
      move raises, the record is already popped and nothing else happens. */
  function AfterUndo(s: Session): Session {
    if s.history == [] then s
    else
      var e := s.history[|s.history| - 1];
      var popped := s.(history := s.history[..|s.history| - 1]);
      var original := Join(s.folder, Basename(e.movedPath));
      match Move(s.fs, e.movedPath, original)
      case None => popped
      case Some(fs') =>
        popped.(fs := fs', paths := Insert(s.paths, e.prevIndex, original), index := e.prevIndex)
  }

  /** `load_image`. */
  function Display(s: Session): View {
    if s.index >= |s.paths| then Finished
    else Showing(s.paths[s.index], s.index + 1, |s.paths|)
  }

  // ---------------------------------------------------------------------------
  // Properties of the session functions
  // ---------------------------------------------------------------------------

  /** Opening a folder keeps exactly the image names of the listing, each joined
      to the folder, resets the cursor and clears the history. */
  lemma SelectFolderResets(s: Session, chosen: string, listing: seq<string>)
    requires chosen != []
    ensures var r := AfterSelectFolder(s, chosen, listing);
      && r.folder == chosen && r.index == 0 && r.history == [] && r.status == s.status && r.fs == s.fs
      && |r.paths| <= |listing|
      && (forall p :: p in r.paths <==> exists f :: f in listing && IsImageName(f) && p == Join(chosen, f))
  {
    var r := AfterSelectFolder(s, chosen, listing);
    var names := ImageNames(listing);
    forall p
      ensures p in r.paths <==> exists f :: f in listing && IsImageName(f) && p == Join(chosen, f)
    {
      if p in r.paths {
        var k :| 0 <= k < |r.paths| && r.paths[k] == p;
        assert names[k] in names;
      }
      if exists f :: f in listing && IsImageName(f) && p == Join(chosen, f) {
        var f :| f in listing && IsImageName(f) && p == Join(chosen, f);
        var k :| 0 <= k < |names| && names[k] == f;
        assert r.paths[k] == p;
      }
    }
  }

  /** A cancelled folder dialog forgets the folder but keeps the list, cursor and history. */
  lemma SelectFolderCancelled(s: Session, listing: seq<string>)
    ensures var r := AfterSelectFolder(s, "", listing);
      r.folder == "" && r.paths == s.paths && r.index == s.index && r.history == s.history
  {
  }

  /** The outcome starts as OK, Left makes it OK and Right makes it NG; the
      destination folder is always one of the two buckets. */
  lemma StatusBindings(s: Session, fs: FileSystem)
    ensures Initial(fs).status == OK
    ensures AfterSetStatus(s, OK).status == OK && AfterSetStatus(s, NG).status == NG
    ensures StatusFolder(s.status) in {"OK", "NG"}
  {
  }

  /** Classifying with the cursor past the end changes nothing. */
  lemma ClassifyAtEndIsNoOp(s: Session)
    requires s.index >= |s.paths|
    ensures AfterClassify(s) == s
  {
  }

  /** Classifying moves the current file to `<folder>/<status>/<basename>`,
      records (destination, old cursor), advances the cursor by one and leaves
      the path list alone. */
  lemma ClassifyMovesCurrent(s: Session)
    requires s.index < |s.paths| && s.paths[s.index] in s.fs
    ensures var current := s.paths[s.index];
      var moved := Join(Join(s.folder, StatusFolder(s.status)), Basename(current));
      var r := AfterClassify(s);
      && moved in r.fs && r.fs[moved] == s.fs[current]
      && (current != moved ==> current !in r.fs)
      && (forall p :: p != current && p != moved ==> (p in r.fs <==> p in s.fs))
      && (forall p :: p != current && p != moved && p in s.fs ==> r.fs[p] == s.fs[p])
      && r.history == s.history + [Entry(moved, s.index)]
      && r.index == s.index + 1
      && r.paths == s.paths && r.folder == s.folder && r.status == s.status
  {
  }

  /** Undo with nothing recorded changes nothing. */
  lemma UndoEmptyIsNoOp(s: Session)
    requires s.history == []
    ensures AfterUndo(s) == s
  {
  }

  /** Undo takes the most recent record, moves its file back into the folder,
      inserts that path at the recorded cursor (`list.insert`, so at the end
      when the cursor is past it), restores the cursor and leaves every other
      file, the folder and the status alone. */
  lemma UndoRestoresLast(s: Session)
    requires s.history != [] && s.history[|s.history| - 1].movedPath in s.fs
    ensures var e := s.history[|s.history| - 1];
      var original := Join(s.folder, Basename(e.movedPath));
      var at := if e.prevIndex < |s.paths| then e.prevIndex else |s.paths|;
      var r := AfterUndo(s);
      && r.history == s.history[..|s.history| - 1]
      && original in r.fs && r.fs[original] == s.fs[e.movedPath]
      && (e.movedPath != original ==> e.movedPath !in r.fs)
      && (forall p :: p != e.movedPath && p != original ==> (p in r.fs <==> p in s.fs))
      && (forall p :: p != e.movedPath && p != original && p in s.fs ==> r.fs[p] == s.fs[p])
      && r.paths == s.paths[..at] + [original] + s.paths[at..]
      && r.index == e.prevIndex
      && r.folder == s.folder && r.status == s.status
  {
  }

  /** Every listed path is a name joined to the session's folder. */
  ghost predicate PathsInFolder(s: Session) {
    forall p :: p in s.paths ==> p == Join(s.folder, Basename(p))
  }

  /** Opening a folder establishes that invariant: directory listings never
      contain `/`. */
  lemma SelectFolderPathsInFolder(s: Session, chosen: string, listing: seq<string>)
    requires chosen != []
    requires forall k :: 0 <= k < |listing| ==> '/' !in listing[k]
    ensures PathsInFolder(AfterSelectFolder(s, chosen, listing))
  {
    var names := ImageNames(listing);
    var r := AfterSelectFolder(s, chosen, listing);
    forall p | p in r.paths ensures p == Join(chosen, Basename(p)) {
      var k :| 0 <= k < |r.paths| && r.paths[k] == p;
      assert names[k] in names;
      BasenameOfJoin(chosen, names[k]);
    }
  }

  lemma InsertMembers(xs: seq<string>, i: nat, x: string)
    ensures forall y :: y in Insert(xs, i, x) <==> y in xs || y == x
  {
    if i < |xs| {
      assert xs == xs[..i] + xs[i..];
    }
  }

  /** Classify and undo keep every listed path inside the folder. */
  lemma StepsKeepPathsInFolder(s: Session)
    requires PathsInFolder(s)
    ensures PathsInFolder(AfterClassify(s))
    ensures PathsInFolder(AfterUndo(s))
  {
    if s.history != [] {
      var e := s.history[|s.history| - 1];
      BasenameOfJoin(s.folder, Basename(e.movedPath));
      InsertMembers(s.paths, e.prevIndex, Join(s.folder, Basename(e.movedPath)));
    }
  }

  /** A file of the folder and its destination are two different paths, and
      undo maps the destination back onto the file. */
  lemma DestinationRoundTrip(s: Session, path: string, name: string)
    requires name != [] && '/' !in name && path == Join(s.folder, name)
    ensures Basename(path) == name
    ensures Destination(s, path) != path
    ensures Join(s.folder, Basename(Destination(s, path))) == path
  {
    BasenameOfJoin(s.folder, name);
    var bucket := StatusFolder(s.status);
    var d := Join(s.folder, bucket);
    assert name[0] != '/' by { assert name[0] in name; }
    JoinLength(s.folder, bucket);
    JoinLength(d, name);
    JoinLength(s.folder, name);
    assert d[|d| - 1] != '/';
    BasenameOfJoin(d, name);
  }

  /** Moving a file to a free path and back restores the file map. */
  lemma MoveThereAndBack(fs: FileSystem, a: string, b: string)
    requires a in fs && b !in fs && a != b
    ensures Move(fs, a, b).Some?
    ensures var fs1 := Move(fs, a, b).value;
      Move(fs1, b, a).Some? && Move(fs1, b, a).value == fs
  {
    var fs1 := fs - {a} + map[b := fs[a]];
    var fs2 := fs1 - {b} + map[a := fs1[b]];
    assert fs2.Keys == fs.Keys;
    assert forall p :: p in fs ==> fs2[p] == fs[p];
  }

  /** What a classify that succeeds does to the session. */
  lemma ClassifySucceeds(s: Session)
    requires s.index < |s.paths| && s.paths[s.index] in s.fs
    ensures var current := s.paths[s.index];
      var moved := Destination(s, current);
      AfterClassify(s) == s.(fs := Move(s.fs, current, moved).value,
                             history := s.history + [Entry(moved, s.index)], index := s.index + 1)
  {
  }

  /** What an undo whose file is still in place does to the session. */
  lemma UndoSucceeds(s: Session)
    requires s.history != [] && s.history[|s.history| - 1].movedPath in s.fs
    ensures var e := s.history[|s.history| - 1];
      var original := Join(s.folder, Basename(e.movedPath));
      AfterUndo(s) == s.(history := s.history[..|s.history| - 1], fs := Move(s.fs, e.movedPath, original).value,
                         paths := Insert(s.paths, e.prevIndex, original), index := e.prevIndex)
  {
  }

  /** Undoing a record whose file moves back to `original`. */
  lemma UndoOfRecord(c: Session, h: seq<Entry>, moved: string, i: nat, original: string, fs0: FileSystem)
    requires c.history == h + [Entry(moved, i)]
    requires Join(c.folder, Basename(moved)) == original
    requires Move(c.fs, moved, original) == Some(fs0)
    ensures AfterUndo(c) == c.(history := h, fs := fs0, paths := Insert(c.paths, i, original), index := i)
  {
    assert c.history[..|c.history| - 1] == h;
  }

  /** Classifying a file of the folder and undoing it at once puts the file
      back at its path and leaves every other file, the cursor and the history
      as they were, but the path list gains a second copy of the path: it now
      sits at both the old cursor and the next position. */
  lemma ClassifyThenUndoDuplicatesPath(s: Session, name: string)
    requires s.index < |s.paths|
    requires name != [] && '/' !in name && s.paths[s.index] == Join(s.folder, name)
    requires s.paths[s.index] in s.fs && Destination(s, s.paths[s.index]) !in s.fs
    ensures var r := AfterUndo(AfterClassify(s));
      && r.fs == s.fs
      && r.index == s.index && r.history == s.history
      && r.folder == s.folder && r.status == s.status
      && |r.paths| == |s.paths| + 1
      && r.paths[s.index] == s.paths[s.index] && r.paths[s.index + 1] == s.paths[s.index]
      && r.paths == s.paths[..s.index] + [s.paths[s.index]] + s.paths[s.index..]
  {
    var current := s.paths[s.index];
    var moved := Destination(s, current);
    var fs1 := Move(s.fs, current, moved).value;
    var c := s.(fs := fs1, history := s.history + [Entry(moved, s.index)], index := s.index + 1);
    assert AfterClassify(s) == c by { ClassifySucceeds(s); }
    var u := c.(history := s.history, fs := s.fs, paths := Insert(s.paths, s.index, current), index := s.index);
    assert AfterUndo(c) == u by {
      DestinationRoundTrip(s, current, name);
      MoveThereAndBack(s.fs, current, moved);
      UndoOfRecord(c, s.history, moved, s.index, current, s.fs);
    }
  }

  /** The duplicate is not harmless: after classify, undo and one more classify,
      the cursor lands on the second copy of the path, whose file has just been
      moved away, so the next classify raises and nothing moves any more. */
  lemma ClassifyAfterUndoStalls(s: Session, name: string)
    requires s.index < |s.paths|
    requires name != [] && '/' !in name && s.paths[s.index] == Join(s.folder, name)
    requires s.paths[s.index] in s.fs && Destination(s, s.paths[s.index]) !in s.fs
    ensures var r := AfterClassify(AfterUndo(AfterClassify(s)));
      r.index == s.index + 1 && r.paths[r.index] == s.paths[s.index] && r.paths[r.index] !in r.fs
    ensures var r := AfterClassify(AfterUndo(AfterClassify(s)));
      AfterClassify(r) == r
  {
    ClassifyThenUndoDuplicatesPath(s, name);
    var u := AfterUndo(AfterClassify(s));
    var current := s.paths[s.index];
    assert u.paths[u.index] == current && current in u.fs;
    assert Destination(u, current) == Destination(s, current);
    DestinationRoundTrip(s, current, name);
    ClassifySucceeds(u);
  }

  /** The display reports completion exactly when the cursor is past the end,
      and otherwise shows the current path as `index + 1 / len`. */
  lemma DisplayFinishedIff(s: Session)
    ensures Display(s) == Finished <==> s.index >= |s.paths|
    ensures s.index < |s.paths| ==>
      Display(s) == Showing(s.paths[s.index], s.index + 1, |s.paths|) && 1 <= s.index + 1 <= |s.paths|
  {
  }

  // ---------------------------------------------------------------------------
  // The classify step the undo was written for
  // ---------------------------------------------------------------------------

  /** The undo handler re-inserts the path "back into the list", which is only
      right if classifying had taken it out. This classify does so: it removes
      the current path and leaves the cursor where it is. */
  function AfterClassifyRemoving(s: Session): Session {
    if s.index >= |s.paths| then s
    else
      var current := s.paths[s.index];
      var moved := Destination(s, current);
      match Move(s.fs, current, moved)
      case None => s
      case Some(fs') =>
        s.(fs := fs', history := s.history + [Entry(moved, s.index)],
           paths := s.paths[..s.index] + s.paths[s.index + 1..])
  }

  lemma ClassifyRemovingSucceeds(s: Session)
    requires s.index < |s.paths| && s.paths[s.index] in s.fs
    ensures var current := s.paths[s.index];
      var moved := Destination(s, current);
      AfterClassifyRemoving(s) == s.(fs := Move(s.fs, current, moved).value,
                                     history := s.history + [Entry(moved, s.index)],
                                     paths := s.paths[..s.index] + s.paths[s.index + 1..])
  {
  }

  /** With that classify, the unchanged undo restores the whole session exactly. */
  lemma ClassifyRemovingThenUndoRestores(s: Session, name: string)
    requires s.index < |s.paths|
    requires name != [] && '/' !in name && s.paths[s.index] == Join(s.folder, name)
    requires s.paths[s.index] in s.fs && Destination(s, s.paths[s.index]) !in s.fs
    ensures AfterUndo(AfterClassifyRemoving(s)) == s
  {
    var current := s.paths[s.index];
    var moved := Destination(s, current);
    var rest := s.paths[..s.index] + s.paths[s.index + 1..];
    var fs1 := Move(s.fs, current, moved).value;
    var c := s.(fs := fs1, history := s.history + [Entry(moved, s.index)], paths := rest);
    assert AfterClassifyRemoving(s) == c by { ClassifyRemovingSucceeds(s); }
    assert AfterUndo(c) == c.(history := s.history, fs := s.fs, paths := Insert(rest, s.index, current)) by {
      DestinationRoundTrip(s, current, name);
      MoveThereAndBack(s.fs, current, moved);
      UndoOfRecord(c, s.history, moved, s.index, current, s.fs);
    }
    InsertWhereRemoved(s.paths, s.index);
  }

  /** Putting an element back where it was taken out restores the list. */
  lemma InsertWhereRemoved(xs: seq<string>, i: nat)
    requires i < |xs|
    ensures Insert(xs[..i] + xs[i + 1..], i, xs[i]) == xs
  {
    var rest := xs[..i] + xs[i + 1..];
    if i < |rest| {
      assert rest[..i] == xs[..i];
      assert rest[i..] == xs[i + 1..];
    } else {
      assert rest == xs[..i];
    }
    assert xs == xs[..i] + [xs[i]] + xs[i + 1..];
  }

  // ---------------------------------------------------------------------------
  // The window object
  // ---------------------------------------------------------------------------

  /** The classifier as the program holds it: mutable fields updated by the
      key and button handlers. */
  class ImageClassifier {
    var selectedFolder: string
    var imagePaths: seq<string>
    var currentIndex: nat
    var history: seq<Entry>
    var status: Status
    var fs: FileSystem

    function Snapshot(): Session
      reads this
    {
      Session(selectedFolder, imagePaths, currentIndex, history, status, fs)
    }

    constructor (files: FileSystem)
      ensures Snapshot() == Initial(files)
    {
      selectedFolder := "";
      imagePaths := [];
      currentIndex := 0;
      history := [];
      status := OK;
      fs := files;
    }

    /** The folder button; `chosen` is the dialog's answer and `listing` the
        folder's directory listing. */
    method SelectFolder(chosen: string, listing: seq<string>)
      modifies this
      ensures Snapshot() == AfterSelectFolder(old(Snapshot()), chosen, listing)
    {
      selectedFolder := chosen;
      if chosen == [] {
        return;
      }
      imagePaths := ListImagePaths(chosen, listing);
      currentIndex := 0;
      history := [];
    }

    method PressLeft()
      modifies this
      ensures Snapshot() == AfterSetStatus(old(Snapshot()), OK)
    {
      status := OK;
    }

    method PressRight()
      modifies this
      ensures Snapshot() == AfterSetStatus(old(Snapshot()), NG)
    {
      status := NG;
    }

    method LoadImage() returns (v: View)
      ensures v == Display(Snapshot())
      ensures v == Finished <==> currentIndex >= |imagePaths|
    {
      if currentIndex >= |imagePaths| {
        return Finished;
      }
      v := Showing(imagePaths[currentIndex], currentIndex + 1, |imagePaths|);
    }

    /** The space key. */
    method ClassifyImage()
      modifies this
      ensures Snapshot() == AfterClassify(old(Snapshot()))
    {
      if currentIndex >= |imagePaths| {
        return;
      }
      var current := imagePaths[currentIndex];
      var target := Join(selectedFolder, StatusFolder(status));
      var moved := Join(target, Basename(current));
      if current !in fs {
        return;
      }
      fs := fs - {current} + map[moved := fs[current]];
      history := history + [Entry(moved, currentIndex)];
      currentIndex := currentIndex + 1;
    }

    /** The undo button. */
    method UndoLast()
      modifies this
      ensures Snapshot() == AfterUndo(old(Snapshot()))
    {
      if history == [] {
        return;
      }
      var last := history[|history| - 1];
      history := history[..|history| - 1];
      var original := Join(selectedFolder, Basename(last.movedPath));
      if last.movedPath !in fs {
        return;
      }
      fs := fs - {last.movedPath} + map[original := fs[last.movedPath]];
      imagePaths := Insert(imagePaths, last.prevIndex, original);
      currentIndex := last.prevIndex;
    }
  }

  /** The list comprehension of `select_folder`: the listing's image names,
      each joined to the folder, in listing order. */
  method ListImagePaths(folder: string, listing: seq<string>) returns (paths: seq<string>)
    ensures paths == JoinAll(folder, ImageNames(listing))
  {
    paths := [];
    var i := 0;
    while i < |listing|
      invariant 0 <= i <= |listing|
      invariant paths == JoinAll(folder, ImageNames(listing[..i]))
    {
      ImageNamesSnoc(listing[..i], listing[i]);
      assert listing[..i + 1] == listing[..i] + [listing[i]];
      if IsImageName(listing[i]) {
        JoinAllSnoc(folder, ImageNames(listing[..i]), listing[i]);
        paths := paths + [Join(folder, listing[i])];
      }
      i := i + 1;
    }
    assert listing[..i] == listing;
  }

  lemma ImageNamesSnoc(names: seq<string>, f: string)
    ensures ImageNames(names + [f]) == ImageNames(names) + (if IsImageName(f) then [f] else [])
  {
    if names != [] {
      assert (names + [f])[1..] == names[1..] + [f];
      ImageNamesSnoc(names[1..], f);
    }
  }

  lemma JoinAllSnoc(dir: string, names: seq<string>, f: string)
    ensures JoinAll(dir, names + [f]) == JoinAll(dir, names) + [Join(dir, f)]
  {
  }
}
