/** The export tree on disk, as a map from directory name to the day files
    in it, and the three operations the day partitioner performs on it:
    creating a directory, writing a day file, and moving a renamed
    conversation's files to its new directory. */
module Files {
  import opened Types

  /** The name of a day file. `NoDay` is the file named after the empty day
      marker the partitioner starts with (`<dir>/.json`); `Day(n)` is the file
      of the `n`-th day since 1970-01-01 (UTC), whose name is that date. */
  datatype DayKey = NoDay | Day(n: nat)

  /** The files of one directory: file name to the messages it holds. */
  type Folder = map<DayKey, seq<Message>>

  /** The tree: every existing directory with its files. */
  type Dirs = map<string, Folder>

  /** The files of `dir`, none when it does not exist. */
  function FilesOf(d: Dirs, dir: string): Folder {
    if dir in d then d[dir] else map[]
  }

  /** The content of file `f` in directory `dir`, if there is one. */
  function Lookup(d: Dirs, dir: string, f: DayKey): Option<seq<Message>> {
    if dir in d && f in d[dir] then Some(d[dir][f]) else None
  }

  /** The files of `m` whose names are in `keys`. */
  function Restrict(m: Folder, keys: set<DayKey>): (r: Folder)
    ensures r.Keys == m.Keys * keys
    ensures forall f :: f in r ==> r[f] == m[f]
  {
    map f | f in m && f in keys :: m[f]
  }

  /** The tree after creating `name` if it is missing. */
  function MadeDir(d: Dirs, name: string): (r: Dirs)
    ensures r.Keys == d.Keys + {name}
    ensures forall dn, f :: Lookup(r, dn, f) == Lookup(d, dn, f)
  {
    if name in d then d else d[name := map[]]
  }

  /** The tree after writing `messages` to file `day` of `dir`. An empty
      list writes nothing and creates nothing; otherwise the directory is
      created if missing, that file holds exactly `messages` (whatever it
      held before), and no other file changes. */
  function Written(d: Dirs, dir: string, day: DayKey, messages: seq<Message>): (r: Dirs)
    ensures messages == [] ==> r == d
    ensures messages != [] ==> r.Keys == d.Keys + {dir} && Lookup(r, dir, day) == Some(messages)
    ensures messages != [] ==>
      forall dn, f :: dn != dir || f != day ==> Lookup(r, dn, f) == Lookup(d, dn, f)
  {
    if messages == [] then d else d[dir := FilesOf(d, dir)[day := messages]]
  }

  /** The tree after moving every file of `from` into `to` and removing
      `from`. Nothing happens when `from` does not exist. Moving a file onto
      a name `to` already holds fails (renaming a non-empty directory to
      itself is such a case); renaming an empty directory to itself removes
      it. */
  function Renamed(d: Dirs, from: string, to: string): (r: Result<Dirs>)
    ensures from !in d ==> r == Ok(d)
    ensures from in d ==> (r.Err? <==> d[from].Keys * FilesOf(d, to).Keys != {})
    ensures r.Err? ==> r.error == DestinationExists(to)
    ensures from in d && r.Ok? && from != to ==>
      && r.value.Keys == d.Keys - {from} + {to}
      && (forall f :: Lookup(r.value, to, f) == if f in d[from] then Lookup(d, from, f) else Lookup(d, to, f))
      && (forall dn, f :: dn != from && dn != to ==> Lookup(r.value, dn, f) == Lookup(d, dn, f))
    ensures from in d && r.Ok? && from == to ==> d[from] == map[] && r.value == d - {from}
  {
    if from !in d then Ok(d)
    else if d[from].Keys * FilesOf(d, to).Keys != {} then Err(DestinationExists(to))
    else if from == to then
      assert d[from].Keys == {};
      Ok(d - {from})
    else Ok((d - {from})[to := FilesOf(d, to) + d[from]])
  }

  /** The tree after writing every file of `files` into `dir`, over whatever
      files of those names it held. No file at all leaves the tree as it is. */
  function Overwrite(d: Dirs, dir: string, files: Folder): (r: Dirs)
    ensures files == map[] ==> r == d
    ensures files != map[] ==> r.Keys == d.Keys + {dir}
    ensures forall dn, f :: Lookup(r, dn, f) == if dn == dir && f in files then Some(files[f]) else Lookup(d, dn, f)
  {
    if files == map[] then d else d[dir := FilesOf(d, dir) + files]
  }

  /** What a failed rename leaves behind: both directories exist, every file
      of `from` is either still there or in `to` with the same content, the
      files `to` had are kept, and no other directory changed. */
  ghost predicate PartlyMoved(d0: Dirs, d: Dirs, from: string, to: string)
    requires from in d0
  {
    && from in d && to in d
    && d.Keys == d0.Keys + {to}
    && (forall dn :: dn != from && dn != to && dn in d ==> d[dn] == d0[dn])
    && (forall f :: f in d[from] ==> f in d0[from] && d[from][f] == d0[from][f])
    && (forall f :: f in d0[from] && f !in d[from] ==> Lookup(d, to, f) == Some(d0[from][f]))
    && (forall f :: f in FilesOf(d0, to) ==> Lookup(d, to, f) == Some(FilesOf(d0, to)[f]))
    && d[to].Keys <= d0[from].Keys + FilesOf(d0, to).Keys
  }

  /** The filesystem the exporter writes into, rooted at its output
      directory. */
  class FileSystem {
    var dirs: Dirs

    constructor (initial: Dirs)
      ensures dirs == initial
    {
      dirs := initial;
    }

    /** Creates directory `name` unless it exists. */
    method MkDir(name: string)
      modifies this
      ensures dirs == MadeDir(old(dirs), name)
    {
      if name !in dirs {
        dirs := dirs[name := map[]];
      }
    }

    /** Writes a day file, creating its directory first; an empty message
      list returns before anything is created. */
    method WriteMessageFile(dir: string, day: DayKey, messages: seq<Message>)
      modifies this
      ensures dirs == Written(old(dirs), dir, day, messages)
    {
      if messages == [] {
        return;
      }
      if dir !in dirs {
        MkDir(dir);
      }
      dirs := dirs[dir := dirs[dir][day := messages]];
    }

    /** Moves a renamed conversation's files, one at a time and in no
      particular order, from its old directory into its new one, then
      removes the old directory. A move onto an existing file name fails and
      ends the rename there. */
    method ChannelRename(from: string, to: string) returns (r: Outcome)
      modifies this
      ensures r.Pass? <==> Renamed(old(dirs), from, to).Ok?
      ensures r.Pass? ==> dirs == Renamed(old(dirs), from, to).value
      ensures r.Fail? ==> r.error == Renamed(old(dirs), from, to).error
      ensures r.Fail? && from != to ==> PartlyMoved(old(dirs), dirs, from, to)
      ensures r.Fail? && from == to ==> dirs == old(dirs)
    {
      if from !in dirs {
        return Pass;
      }
      ghost var d0 := dirs;
      MkDir(to);
      var pending := dirs[from].Keys;
      ghost var moved: set<DayKey> := {};
      assert Restrict(d0[from], pending) == d0[from];
      assert FilesOf(d0, to) + Restrict(d0[from], {}) == FilesOf(d0, to);
      while pending != {}
        invariant MoveState(d0, dirs, from, to, pending, moved)
        decreases pending
      {
        var f :| f in pending;
        if f in dirs[to] {
          MoveCollision(d0, dirs, from, to, pending, moved, f);
          return Fail(DestinationExists(to));
        }
        ghost var d := dirs;
        dirs := dirs[to := dirs[to][f := dirs[from][f]]];
        dirs := dirs[from := dirs[from] - {f}];
        MoveStep(d0, d, dirs, from, to, pending, moved, f);
        pending := pending - {f};
        moved := moved + {f};
      }
      MoveDone(d0, dirs, from, to, moved);
      dirs := dirs - {from};
      return Pass;
    }
  }

  /** The tree part-way through a rename from `from` to a different `to`:
      the files in `moved` are in `to`, those in `pending` still in `from`. */
  ghost predicate MoveState(d0: Dirs, d: Dirs, from: string, to: string, pending: set<DayKey>, moved: set<DayKey>)
  {
    && from in d0
    && from in d && to in d
    && pending !! moved && pending + moved == d0[from].Keys
    && moved !! FilesOf(d0, to).Keys
    && (from == to ==> moved == {} && d == d0)
    && (from != to ==> d[from] == Restrict(d0[from], pending))
    && (from != to ==> d[to] == FilesOf(d0, to) + Restrict(d0[from], moved))
    && d.Keys == d0.Keys + {to}
    && (forall dn :: dn != from && dn != to && dn in d ==> d[dn] == d0[dn])
  }

  lemma MoveStep(d0: Dirs, d: Dirs, d': Dirs, from: string, to: string,
                 pending: set<DayKey>, moved: set<DayKey>, f: DayKey)
    requires MoveState(d0, d, from, to, pending, moved)
    requires f in pending && f !in d[to]
    requires d' == d[to := d[to][f := d[from][f]]][from := d[from] - {f}]
    ensures MoveState(d0, d', from, to, pending - {f}, moved + {f})
  {
    assert from != to;
    assert d'[from] == Restrict(d0[from], pending - {f});
    assert d'[to] == FilesOf(d0, to) + Restrict(d0[from], moved + {f});
  }

  lemma MoveCollision(d0: Dirs, d: Dirs, from: string, to: string,
                      pending: set<DayKey>, moved: set<DayKey>, f: DayKey)
    requires MoveState(d0, d, from, to, pending, moved)
    requires f in pending && f in d[to]
    ensures Renamed(d0, from, to) == Err(DestinationExists(to))
    ensures from != to ==> PartlyMoved(d0, d, from, to)
    ensures from == to ==> d == d0
  {
    assert f in d0[from].Keys * FilesOf(d0, to).Keys;
  }

  lemma MoveDone(d0: Dirs, d: Dirs, from: string, to: string, moved: set<DayKey>)
    requires MoveState(d0, d, from, to, {}, moved)
    ensures Renamed(d0, from, to) == Ok(d - {from})
  {
    assert d0[from].Keys * FilesOf(d0, to).Keys == {};
    if from != to {
      assert Restrict(d0[from], moved) == d0[from];
      assert d - {from} == (d0 - {from})[to := FilesOf(d0, to) + d0[from]];
    }
  }
}
