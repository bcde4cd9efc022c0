/** The day partitioner: one pass over a conversation's history that writes
    each calendar day's messages to `<room dir>/<day>.json`, and follows
    rename events by moving the conversation's files to its new directory. */
module Partition {
  import opened Types
  import opened TimeStamps
  import opened Files
  import opened Seqs

  /** The day a message belongs to: the UTC day of its timestamp's whole
      seconds. A `ts` without a '.' gives no time, and naming its day fails. */
  function MessageDay(m: Message): (r: Result<DayKey>)
    ensures r.Ok? ==> r.value.Day?
  {
    var stamp :- ParseTimeStamp(m.ts);
    match stamp
    case NoStamp => Err(MissingStamp)
    case At(secs) => Ok(Day(secs / SecondsPerDay))
  }

  predicate Stamped(m: Message) {
    MessageDay(m).Ok?
  }

  /** The day file a message goes to; the empty marker for a message
      whose day cannot be named, which the partitioner never files. */
  function DayOf(m: Message): DayKey {
    match MessageDay(m)
    case Ok(k) => k
    case Err(_) => NoDay
  }

  /** Day keys in time order; the empty marker comes before every day, as
      the empty string sorts before every date. */
  function Ord(k: DayKey): int {
    if k.NoDay? then -1 else k.n
  }

  /** A rename event of this room kind; DMs are never renamed. */
  predicate IsRename(m: Message, roomType: RoomType) {
    roomType != Im && m.subtype == Some(roomType.RenameFlag())
  }

  // ---------------------------------------------------------------------------
  // The pass, one message at a time.

  /** The state of the pass: the tree, the directory written to, the day
      being collected and the messages collected for it. */
  datatype Walk = Walk(fs: Dirs, roomDir: string, day: DayKey, acc: seq<Message>)

  /** Writing out the day being collected. */
  function Flush(w: Walk): Dirs {
    Written(w.fs, w.roomDir, w.day, w.acc)
  }

  /** One message: find its day; on a new day write out the previous one
      and start collecting afresh; on a rename event move the files and
      switch directory; then collect the message. */
  function Step(w: Walk, m: Message, roomType: RoomType): Result<Walk> {
    var day :- MessageDay(m);
    Collect(NewDay(w, day), m, roomType)
  }

  /** The state once the day of the next message is known. */
  function NewDay(w: Walk, day: DayKey): Walk {
    if day != w.day then Walk(Flush(w), w.roomDir, day, []) else w
  }

  /** Collecting a message, after following it if it is a rename event. */
  function Collect(w: Walk, m: Message, roomType: RoomType): Result<Walk> {
    if IsRename(m, roomType) then
      if m.name.None? then Err(MissingField("name"))
      else if m.oldName.None? then Err(MissingField("old_name"))
      else
        var fs :- Renamed(w.fs, m.oldName.value, m.name.value);
        Ok(Walk(fs, m.name.value, w.day, w.acc + [m]))
    else Ok(w.(acc := w.acc + [m]))
  }

  function WalkAll(w: Walk, messages: seq<Message>, roomType: RoomType): Result<Walk>
    decreases |messages|
  {
    if messages == [] then Ok(w)
    else
      var w1 :- Step(w, messages[0], roomType);
      WalkAll(w1, messages[1..], roomType)
  }

  /** The tree after partitioning `messages` of a room into `dir`: the pass,
      then a last write of the day still being collected. */
  function Partitioned(fs: Dirs, dir: string, messages: seq<Message>, roomType: RoomType): (r: Result<Dirs>)
    ensures messages == [] ==> r == Ok(fs)
  {
    var w :- WalkAll(Walk(fs, dir, NoDay, []), messages, roomType);
    Ok(Flush(w))
  }

  lemma {:induction false} WalkAllAppend(w: Walk, a: seq<Message>, b: seq<Message>, roomType: RoomType)
    ensures WalkAll(w, a + b, roomType) == (var w1 :- WalkAll(w, a, roomType); WalkAll(w1, b, roomType))
    decreases |a|
  {
    if a == [] {
      assert a + b == b;
    } else {
      assert (a + b)[0] == a[0] && (a + b)[1..] == a[1..] + b;
      var s := Step(w, a[0], roomType);
      if s.Ok? {
        WalkAllAppend(s.value, a[1..], b, roomType);
      }
    }
  }

  // ---------------------------------------------------------------------------
  // The partitioner as the loop it is.

  /** Walks the sorted history once, writing each finished day to
      `<room dir>/<day>.json` and the last day after the loop. A rename event
      of a channel or group moves `old_name`'s files to `name` and makes
      `name` the directory for every later write. */
  method ParseMessages(fs: FileSystem, roomDir: string, messages: seq<Message>, roomType: RoomType)
    returns (r: Outcome)
    modifies fs
    ensures r.Pass? <==> Partitioned(old(fs.dirs), roomDir, messages, roomType).Ok?
    ensures r.Pass? ==> fs.dirs == Partitioned(old(fs.dirs), roomDir, messages, roomType).value
    ensures r.Fail? ==> r.error == Partitioned(old(fs.dirs), roomDir, messages, roomType).error
  {
    ghost var w0 := Walk(fs.dirs, roomDir, NoDay, []);
    var dir := roomDir;
    var currentDay := NoDay;
    var current: seq<Message> := [];
    var i := 0;
    while i < |messages|
      invariant 0 <= i <= |messages|
      invariant Reaches(w0, messages[..i], roomType, Walk(fs.dirs, dir, currentDay, current))
    {
      var m := messages[i];
      ghost var w := Walk(fs.dirs, dir, currentDay, current);
      var stamp := ParseTimeStamp(m.ts);
      if stamp.Err? {
        StepFails(w, m, roomType);
        WalkAllFails(w0, messages, i, w, roomType);
        return Fail(stamp.error);
      }
      if stamp.value.NoStamp? {
        StepFails(w, m, roomType);
        WalkAllFails(w0, messages, i, w, roomType);
        return Fail(MissingStamp);
      }
      var fileDay := Day(stamp.value.secs / SecondsPerDay);
      StepAt(w, m, roomType, stamp.value.secs);
      if fileDay != currentDay {
        fs.WriteMessageFile(dir, currentDay, current);
        currentDay := fileDay;
        current := [];
      }
      ghost var w1 := Walk(fs.dirs, dir, currentDay, current);
      assert Step(w, m, roomType) == Collect(w1, m, roomType);
      if roomType != Im && m.subtype == Some(roomType.RenameFlag()) {
        if m.name.None? {
          WalkAllFails(w0, messages, i, w, roomType);
          return Fail(MissingField("name"));
        }
        dir := m.name.value;
        if m.oldName.None? {
          WalkAllFails(w0, messages, i, w, roomType);
          return Fail(MissingField("old_name"));
        }
        var moved := fs.ChannelRename(m.oldName.value, dir);
        if moved.Fail? {
          WalkAllFails(w0, messages, i, w, roomType);
          return moved;
        }
      }
      current := current + [m];
      assert Step(w, m, roomType) == Ok(Walk(fs.dirs, dir, currentDay, current));
      WalkAllStep(w0, messages, i, w, roomType);
      assert Reaches(w0, messages[..i + 1], roomType, Walk(fs.dirs, dir, currentDay, current));
      i := i + 1;
    }
    assert messages[..i] == messages;
    fs.WriteMessageFile(dir, currentDay, current);
    return Pass;
  }

  /** The pass over `s` from `w0` ends in state `w`. */
  predicate Reaches(w0: Walk, s: seq<Message>, roomType: RoomType, w: Walk) {
    WalkAll(w0, s, roomType) == Ok(w)
  }

  lemma StepFails(w: Walk, m: Message, roomType: RoomType)
    requires ParseTimeStamp(m.ts).Err? || ParseTimeStamp(m.ts) == Ok(NoStamp)
    ensures Step(w, m, roomType)
      == Err(if ParseTimeStamp(m.ts).Err? then ParseTimeStamp(m.ts).error else MissingStamp)
  {
  }

  lemma StepAt(w: Walk, m: Message, roomType: RoomType, secs: nat)
    requires ParseTimeStamp(m.ts) == Ok(At(secs))
    ensures Step(w, m, roomType) == Collect(NewDay(w, Day(secs / SecondsPerDay)), m, roomType)
  {
  }

  lemma WalkAllStep(w0: Walk, messages: seq<Message>, i: nat, w: Walk, roomType: RoomType)
    requires i < |messages|
    requires WalkAll(w0, messages[..i], roomType) == Ok(w)
    requires Step(w, messages[i], roomType).Ok?
    ensures WalkAll(w0, messages[..i + 1], roomType) == Step(w, messages[i], roomType)
  {
    assert messages[..i + 1] == messages[..i] + [messages[i]];
    WalkAllAppend(w0, messages[..i], [messages[i]], roomType);
    assert [messages[i]][1..] == [];
  }

  lemma WalkAllFails(w0: Walk, messages: seq<Message>, i: nat, w: Walk, roomType: RoomType)
    requires i < |messages|
    requires WalkAll(w0, messages[..i], roomType) == Ok(w)
    requires Step(w, messages[i], roomType).Err?
    ensures WalkAll(w0, messages, roomType) == Err(Step(w, messages[i], roomType).error)
  {
    assert messages == messages[..i] + messages[i..];
    WalkAllAppend(w0, messages[..i], messages[i..], roomType);
    assert messages[i..][0] == messages[i];
  }

  // ---------------------------------------------------------------------------
  // What the partition should be: one file per day, holding that day's
  // messages in their order. These definitions take the day of a message
  // as a parameter `day`; the partitioner's days are those of `DayOf`.

  predicate AllStamped(s: seq<Message>) {
    forall m | m in s :: Stamped(m)
  }

  /** `day` names the day of every message of `s` as the partitioner does. */
  predicate Dated(s: seq<Message>, day: Message -> DayKey) {
    forall m | m in s :: MessageDay(m) == Ok(day(m))
  }

  /** Messages in day order, as a history sorted by time is. */
  predicate DaySorted(s: seq<Message>, day: Message -> DayKey) {
    forall i, j :: 0 <= i < j < |s| ==> Ord(day(s[i])) <= Ord(day(s[j]))
  }

  predicate NoRenames(s: seq<Message>, roomType: RoomType) {
    forall m | m in s :: !IsRename(m, roomType)
  }

  /** The messages of day `k`, in their order. */
  function OnDay(s: seq<Message>, day: Message -> DayKey, k: DayKey): seq<Message>
    decreases |s|
  {
    if s == [] then []
    else (if day(s[0]) == k then [s[0]] else []) + OnDay(s[1..], day, k)
  }

  /** The days the messages fall on. */
  function DaysOf(s: seq<Message>, day: Message -> DayKey): set<DayKey> {
    set m | m in s :: day(m)
  }

  /** The day files a history should produce: one per day it touches,
      holding that day's messages. */
  function DayFiles(s: seq<Message>, day: Message -> DayKey): Folder {
    map k | k in DaysOf(s, day) :: OnDay(s, day, k)
  }

  /** The day of the last message; the empty marker when there is none. */
  function LastDay(s: seq<Message>, day: Message -> DayKey): (k: DayKey)
    ensures s != [] ==> k in DaysOf(s, day)
  {
    if s == [] then NoDay else day(s[|s| - 1])
  }

  // ---------------------------------------------------------------------------
  // Lemmas about the reference definitions.

  lemma {:induction false} OnDayAppend(a: seq<Message>, b: seq<Message>, day: Message -> DayKey, k: DayKey)
    ensures OnDay(a + b, day, k) == OnDay(a, day, k) + OnDay(b, day, k)
    decreases |a|
  {
    if a == [] {
      assert a + b == b;
    } else {
      var head := if day(a[0]) == k then [a[0]] else [];
      assert (a + b)[0] == a[0] && (a + b)[1..] == a[1..] + b;
      assert OnDay(a + b, day, k) == head + OnDay(a[1..] + b, day, k);
      OnDayAppend(a[1..], b, day, k);
      assert OnDay(a, day, k) == head + OnDay(a[1..], day, k);
    }
  }

  lemma OnDaySnoc(s: seq<Message>, m: Message, day: Message -> DayKey, k: DayKey)
    ensures OnDay(s + [m], day, k) == if day(m) == k then OnDay(s, day, k) + [m] else OnDay(s, day, k)
  {
    OnDayAppend(s, [m], day, k);
    assert [m][1..] == [];
  }

  lemma {:induction false} OnDayAll(a: seq<Message>, day: Message -> DayKey, k: DayKey)
    requires forall m | m in a :: day(m) == k
    ensures OnDay(a, day, k) == a
    decreases |a|
  {
    if a != [] {
      OnDayAll(a[1..], day, k);
      assert a == [a[0]] + a[1..];
    }
  }

  lemma {:induction false} OnDayNone(a: seq<Message>, day: Message -> DayKey, k: DayKey)
    requires forall m | m in a :: day(m) != k
    ensures OnDay(a, day, k) == []
    decreases |a|
  {
    if a != [] {
      OnDayNone(a[1..], day, k);
    }
  }

  /** A day's messages are exactly the messages of that day, in their
      order. */
  lemma {:induction false} OnDayMembers(s: seq<Message>, day: Message -> DayKey, k: DayKey)
    ensures IsSubsequence(OnDay(s, day, k), s)
    ensures forall m | m in OnDay(s, day, k) :: m in s && day(m) == k
    ensures forall m | m in s :: m in OnDay(s, day, k) <==> day(m) == k
    decreases |s|
  {
    if s != [] {
      OnDayMembers(s[1..], day, k);
      var rest := OnDay(s[1..], day, k);
      if day(s[0]) == k {
        assert OnDay(s, day, k) == [s[0]] + rest;
        assert ([s[0]] + rest)[1..] == rest;
      } else {
        assert OnDay(s, day, k) == rest;
      }
    }
  }

  lemma DaysOfSnoc(s: seq<Message>, m: Message, day: Message -> DayKey)
    ensures DaysOf(s + [m], day) == DaysOf(s, day) + {day(m)}
  {
    assert forall x | x in s + [m] :: x in s || x == m;
  }

  /** One more message adds it to the file of its day. */
  lemma DayFilesSnoc(s: seq<Message>, m: Message, day: Message -> DayKey)
    ensures DayFiles(s + [m], day) == DayFiles(s, day)[day(m) := OnDay(s, day, day(m)) + [m]]
  {
    var l, r := DayFiles(s + [m], day), DayFiles(s, day)[day(m) := OnDay(s, day, day(m)) + [m]];
    DaysOfSnoc(s, m, day);
    forall j | j in l.Keys
      ensures l[j] == r[j]
    {
      OnDaySnoc(s, m, day, j);
    }
  }

  lemma DaySortedSplit(a: seq<Message>, b: seq<Message>, day: Message -> DayKey)
    requires DaySorted(a + b, day)
    ensures DaySorted(a, day) && DaySorted(b, day)
    ensures forall x, y | x in a && y in b :: Ord(day(x)) <= Ord(day(y))
  {
    forall i, j | 0 <= i < j < |b| ensures Ord(day(b[i])) <= Ord(day(b[j])) {
      assert b[i] == (a + b)[|a| + i] && b[j] == (a + b)[|a| + j];
    }
    forall i, j | 0 <= i < j < |a| ensures Ord(day(a[i])) <= Ord(day(a[j])) {
      assert a[i] == (a + b)[i] && a[j] == (a + b)[j];
    }
    forall x, y | x in a && y in b ensures Ord(day(x)) <= Ord(day(y)) {
      var i :| 0 <= i < |a| && a[i] == x;
      var j :| 0 <= j < |b| && b[j] == y;
      assert x == (a + b)[i] && y == (a + b)[|a| + j];
    }
  }

  lemma DaySortedJoin(a: seq<Message>, b: seq<Message>, day: Message -> DayKey)
    requires DaySorted(a, day) && DaySorted(b, day)
    requires forall x, y | x in a && y in b :: Ord(day(x)) <= Ord(day(y))
    ensures DaySorted(a + b, day)
  {
    var c := a + b;
    forall i, j | 0 <= i < j < |c| ensures Ord(day(c[i])) <= Ord(day(c[j])) {
      if j < |a| {
        assert c[i] == a[i] && c[j] == a[j];
      } else if i >= |a| {
        assert c[i] == b[i - |a|] && c[j] == b[j - |a|];
      } else {
        assert c[i] == a[i] && c[j] == b[j - |a|];
      }
    }
  }

  /** In a day-sorted history no day is later than the last one. */
  lemma LastIsLatest(s: seq<Message>, day: Message -> DayKey)
    requires DaySorted(s, day)
    ensures forall m | m in s :: Ord(day(m)) <= Ord(LastDay(s, day))
  {
    forall m | m in s ensures Ord(day(m)) <= Ord(LastDay(s, day)) {
      var i :| 0 <= i < |s| && s[i] == m;
      if i < |s| - 1 {
        assert Ord(day(s[i])) <= Ord(day(s[|s| - 1]));
      }
    }
  }

  lemma OverwriteTwice(d: Dirs, dir: string, f1: Folder, f2: Folder)
    ensures Overwrite(Overwrite(d, dir, f1), dir, f2) == Overwrite(d, dir, f1 + f2)
  {
    if f1 != map[] && f2 != map[] {
      assert f1 + f2 != map[] by {
        var k :| k in f1;
        assert k in f1 + f2;
      }
      assert FilesOf(Overwrite(d, dir, f1), dir) + f2 == FilesOf(d, dir) + (f1 + f2);
    } else if f1 == map[] {
      assert f1 + f2 == f2;
    } else {
      assert f1 + f2 == f1;
    }
  }

  lemma WrittenAsOverwrite(d: Dirs, dir: string, day: DayKey, messages: seq<Message>)
    requires messages != []
    ensures Written(d, dir, day, messages) == Overwrite(d, dir, map[day := messages])
  {
    assert FilesOf(d, dir)[day := messages] == FilesOf(d, dir) + map[day := messages];
  }

  /** Writing the one file missing from a set of files completes it. */
  lemma WriteLastFile(fs: Dirs, dir: string, files: Folder, last: DayKey)
    requires last in files && files[last] != []
    ensures Written(Overwrite(fs, dir, files - {last}), dir, last, files[last]) == Overwrite(fs, dir, files)
  {
    var rest := Overwrite(fs, dir, files - {last});
    WrittenAsOverwrite(rest, dir, last, files[last]);
    OverwriteTwice(fs, dir, files - {last}, map[last := files[last]]);
    assert (files - {last}) + map[last := files[last]] == files;
  }

  // ---------------------------------------------------------------------------
  // The pass over a history without rename events.

  /** The state of the pass after the messages `t`, started in `dir`: every
      day but the last is written, and the last is being collected. */
  function Midway(fs: Dirs, dir: string, t: seq<Message>, day: Message -> DayKey): Walk {
    var last := LastDay(t, day);
    Walk(Overwrite(fs, dir, DayFiles(t, day) - {last}), dir, last, OnDay(t, day, last))
  }

  lemma MidwayAtStart(fs: Dirs, dir: string, day: Message -> DayKey)
    ensures Midway(fs, dir, [], day) == Walk(fs, dir, NoDay, [])
  {
    assert DaysOf([], day) == {};
    assert DayFiles([], day) - {NoDay} == map[];
  }

  /** A state collecting one day's messages is the state after them. */
  lemma MidwayOfRun(w: Walk, day: Message -> DayKey)
    requires w.acc != [] && forall m | m in w.acc :: day(m) == w.day
    ensures Midway(w.fs, w.roomDir, w.acc, day) == w
  {
    var k := w.day;
    assert day(w.acc[0]) == k;
    assert DaysOf(w.acc, day) == {k};
    OnDayAll(w.acc, day, k);
    assert DayFiles(w.acc, day) - {k} == map[];
  }

  /** Arriving at day `d`, no earlier than any message so far: the files of
      every other day are written, and `d`'s messages are being collected. */
  lemma NewDayMidway(fs: Dirs, dir: string, t: seq<Message>, day: Message -> DayKey, d: DayKey)
    requires DaySorted(t, day) && forall m | m in t :: Ord(day(m)) <= Ord(d)
    ensures NewDay(Midway(fs, dir, t, day), d)
      == Walk(Overwrite(fs, dir, DayFiles(t, day) - {d}), dir, d, OnDay(t, day, d))
  {
    if d != LastDay(t, day) {
      assert d !in DaysOf(t, day) by {
        LastIsLatest(t, day);
      }
      OnDayNone(t, day, d);
      FlushMidway(fs, dir, t, day);
      assert DayFiles(t, day) - {d} == DayFiles(t, day);
    }
  }

  /** The last write of the pass completes the partition. */
  lemma FlushMidway(fs: Dirs, dir: string, t: seq<Message>, day: Message -> DayKey)
    ensures Flush(Midway(fs, dir, t, day)) == Overwrite(fs, dir, DayFiles(t, day))
  {
    if t == [] {
      MidwayAtStart(fs, dir, day);
      assert DaysOf(t, day) == {};
    } else {
      LastDayHasMessages(t, day);
      WriteLastFile(fs, dir, DayFiles(t, day), LastDay(t, day));
    }
  }

  lemma LastDayHasMessages(t: seq<Message>, day: Message -> DayKey)
    requires t != []
    ensures OnDay(t, day, LastDay(t, day)) != []
  {
    var init, m := t[..|t| - 1], t[|t| - 1];
    assert t == init + [m];
    OnDaySnoc(init, m, day, day(m));
  }

  lemma MidwayAppend(fs: Dirs, dir: string, t: seq<Message>, m: Message, day: Message -> DayKey)
    ensures Midway(fs, dir, t + [m], day)
      == Walk(Overwrite(fs, dir, DayFiles(t, day) - {day(m)}), dir, day(m), OnDay(t, day, day(m)) + [m])
  {
    var d := day(m);
    assert LastDay(t + [m], day) == d;
    OnDaySnoc(t, m, day, d);
    assert DayFiles(t + [m], day) - {d} == DayFiles(t, day) - {d} by {
      DayFilesSnoc(t, m, day);
      assert DayFiles(t, day)[d := OnDay(t, day, d) + [m]] - {d} == DayFiles(t, day) - {d};
    }
  }

  /** One message that is not a rename event, in day order. */
  lemma MidwayStep(fs: Dirs, dir: string, t: seq<Message>, m: Message, roomType: RoomType, day: Message -> DayKey)
    requires MessageDay(m) == Ok(day(m)) && !IsRename(m, roomType)
    requires DaySorted(t, day) && forall x | x in t :: Ord(day(x)) <= Ord(day(m))
    ensures Step(Midway(fs, dir, t, day), m, roomType) == Ok(Midway(fs, dir, t + [m], day))
  {
    var w := NewDay(Midway(fs, dir, t, day), day(m));
    NewDayMidway(fs, dir, t, day, day(m));
    assert Step(Midway(fs, dir, t, day), m, roomType) == Ok(w.(acc := w.acc + [m]));
    MidwayAppend(fs, dir, t, m, day);
  }

  /** The pass over day-sorted messages without rename events. */
  lemma {:induction false} WalkMidway(fs: Dirs, dir: string, t: seq<Message>, s: seq<Message>,
                                      roomType: RoomType, day: Message -> DayKey)
    requires Dated(s, day) && NoRenames(s, roomType) && DaySorted(t + s, day)
    ensures WalkAll(Midway(fs, dir, t, day), s, roomType) == Ok(Midway(fs, dir, t + s, day))
    decreases |s|
  {
    if s == [] {
      assert t + s == t;
    } else {
      var m := s[0];
      assert t + s == (t + [m]) + s[1..];
      DaySortedSplit(t + [m], s[1..], day);
      DaySortedSplit(t, [m], day);
      MidwayStep(fs, dir, t, m, roomType, day);
      WalkMidway(fs, dir, t + [m], s[1..], roomType, day);
    }
  }

  lemma StampedIsDated(s: seq<Message>)
    requires AllStamped(s)
    ensures Dated(s, DayOf)
  {
  }

  /** The partitioner on a day-sorted history without rename events (every
      DM's): the tree gains exactly the day files of the history, in the
      room's directory, over whatever files of those names it held. */
  lemma PartitionByDay(fs: Dirs, dir: string, s: seq<Message>, roomType: RoomType)
    requires AllStamped(s) && DaySorted(s, DayOf) && NoRenames(s, roomType)
    ensures Partitioned(fs, dir, s, roomType) == Ok(Overwrite(fs, dir, DayFiles(s, DayOf)))
  {
    MidwayAtStart(fs, dir, DayOf);
    assert [] + s == s;
    StampedIsDated(s);
    WalkMidway(fs, dir, [], s, roomType, DayOf);
    FlushMidway(fs, dir, s, DayOf);
  }

  // ---------------------------------------------------------------------------
  // A rename event.

  lemma {:induction false} SameDaySorted(s: seq<Message>, day: Message -> DayKey, d: DayKey)
    requires forall m | m in s :: day(m) == d
    ensures DaySorted(s, day)
  {
    assert forall i | 0 <= i < |s| :: day(s[i]) == d;
  }

  lemma DatedParts(a: seq<Message>, b: seq<Message>, day: Message -> DayKey)
    requires Dated(a + b, day)
    ensures Dated(a, day) && Dated(b, day)
  {
    assert forall m | m in a :: m in a + b;
    assert forall m | m in b :: m in a + b;
  }

  /** The pass over a history with one rename event `r` of this room kind,
      from `old_name` to `name`: the days before `r`'s day are written to
      the starting directory, that directory's files are then moved, and
      `r`'s day (with the messages before `r` on that day) and everything
      after go to the new directory. */
  lemma WalkAcrossRename(fs: Dirs, dir: string, p: seq<Message>, r: Message, q: seq<Message>,
                         roomType: RoomType, day: Message -> DayKey)
    requires Dated(p + [r] + q, day) && DaySorted(p + [r] + q, day)
    requires NoRenames(p, roomType) && NoRenames(q, roomType)
    requires IsRename(r, roomType) && r.name.Some? && r.oldName.Some?
    ensures Partitioned(fs, dir, p + [r] + q, roomType) ==
      (var d := day(r);
       var fs2 :- Renamed(Overwrite(fs, dir, DayFiles(p, day) - {d}), r.oldName.value, r.name.value);
       Ok(Overwrite(fs2, r.name.value, DayFiles(OnDay(p, day, d) + [r] + q, day))))
  {
    var d, rq := day(r), [r] + q;
    assert p + [r] + q == p + rq;
    DatedParts(p, rq, day);
    DatedParts([r], q, day);
    DaySortedSplit(p, rq, day);
    DaySortedSplit([r], q, day);
    UpToRename(fs, dir, p, r, q, roomType, day);
    var fs1 := Overwrite(fs, dir, DayFiles(p, day) - {d});
    var moved := Renamed(fs1, r.oldName.value, r.name.value);
    if moved.Ok? {
      var t := OnDay(p, day, d) + [r];
      OnDayMembers(p, day, d);
      AfterRename(moved.value, r.name.value, t, q, roomType, day, d);
    }
  }

  /** The pass up to and including the rename event. */
  lemma UpToRename(fs: Dirs, dir: string, p: seq<Message>, r: Message, q: seq<Message>,
                   roomType: RoomType, day: Message -> DayKey)
    requires Dated(p, day) && MessageDay(r) == Ok(day(r)) && NoRenames(p, roomType)
    requires DaySorted(p, day) && forall x | x in p :: Ord(day(x)) <= Ord(day(r))
    ensures WalkAll(Walk(fs, dir, NoDay, []), p + ([r] + q), roomType)
      == (var w :- Collect(Walk(Overwrite(fs, dir, DayFiles(p, day) - {day(r)}), dir, day(r), OnDay(p, day, day(r))), r, roomType);
          WalkAll(w, q, roomType))
  {
    var w0, rq := Walk(fs, dir, NoDay, []), [r] + q;
    MidwayAtStart(fs, dir, day);
    assert [] + p == p;
    WalkMidway(fs, dir, [], p, roomType, day);
    WalkAllAppend(w0, p, rq, roomType);
    assert rq[0] == r && rq[1..] == q;
    NewDayMidway(fs, dir, p, day, day(r));
  }

  /** The pass after the rename event, in the new directory. */
  lemma AfterRename(fs: Dirs, dir: string, t: seq<Message>, q: seq<Message>,
                    roomType: RoomType, day: Message -> DayKey, d: DayKey)
    requires t != [] && forall m | m in t :: day(m) == d
    requires Dated(q, day) && NoRenames(q, roomType) && DaySorted(q, day)
    requires forall y | y in q :: Ord(d) <= Ord(day(y))
    ensures (var w :- WalkAll(Walk(fs, dir, d, t), q, roomType); Ok(Flush(w)))
      == Ok(Overwrite(fs, dir, DayFiles(t + q, day)))
  {
    MidwayOfRun(Walk(fs, dir, d, t), day);
    SameDaySorted(t, day, d);
    DaySortedJoin(t, q, day);
    WalkMidway(fs, dir, t, q, roomType, day);
    FlushMidway(fs, dir, t + q, day);
  }

  /** The rename theorem for the partitioner's own days. */
  lemma PartitionWithRename(fs: Dirs, dir: string, p: seq<Message>, r: Message, q: seq<Message>, roomType: RoomType)
    requires AllStamped(p + [r] + q) && DaySorted(p + [r] + q, DayOf)
    requires NoRenames(p, roomType) && NoRenames(q, roomType)
    requires IsRename(r, roomType) && r.name.Some? && r.oldName.Some?
    ensures Partitioned(fs, dir, p + [r] + q, roomType) ==
      (var d := DayOf(r);
       var fs2 :- Renamed(Overwrite(fs, dir, DayFiles(p, DayOf) - {d}), r.oldName.value, r.name.value);
       Ok(Overwrite(fs2, r.name.value, DayFiles(OnDay(p, DayOf, d) + [r] + q, DayOf))))
  {
    StampedIsDated(p + [r] + q);
    WalkAcrossRename(fs, dir, p, r, q, roomType, DayOf);
  }

  lemma DayFilesOfRun(t: seq<Message>, day: Message -> DayKey, d: DayKey)
    requires t != [] && forall m | m in t :: day(m) == d
    ensures DayFiles(t, day) == map[d := t]
  {
    assert day(t[0]) == d;
    assert DaysOf(t, day) == {d};
    OnDayAll(t, day, d);
  }

  /** A channel renamed in mid-day, exported under its current name: the
      listing gives the name the rename event took, so the pass starts in
      that directory, created empty, and the old name has no directory.
      The whole day, rename event included, lands in one file there, and
      the rename finds nothing to move. */
  lemma RenameMidDay(fs: Dirs, oldDir: string, newDir: string, m1: Message, r: Message, m2: Message,
                     day: Message -> DayKey)
    requires newDir in fs && fs[newDir] == map[] && oldDir !in fs && oldDir != newDir
    requires Dated([m1, r, m2], day) && day(m1) == day(r) == day(m2)
    requires !IsRename(m1, Channel) && !IsRename(m2, Channel)
    requires r.subtype == Some(Channel.RenameFlag()) && r.oldName == Some(oldDir) && r.name == Some(newDir)
    ensures Partitioned(fs, newDir, [m1, r, m2], Channel) == Ok(fs[newDir := map[day(r) := [m1, r, m2]]])
  {
    assert [m1] + [r] + [m2] == [m1, r, m2];
    SameDaySorted([m1, r, m2], day, day(r));
    WalkAcrossRename(fs, newDir, [m1], r, [m2], Channel, day);
    MidDayFiles(fs, oldDir, newDir, m1, r, m2, day);
  }

  lemma MidDayFiles(fs: Dirs, oldDir: string, newDir: string, m1: Message, r: Message, m2: Message,
                    day: Message -> DayKey)
    requires newDir in fs && fs[newDir] == map[] && oldDir !in fs
    requires day(m1) == day(r) == day(m2)
    ensures (var fs2 :- Renamed(Overwrite(fs, newDir, DayFiles([m1], day) - {day(r)}), oldDir, newDir);
             Ok(Overwrite(fs2, newDir, DayFiles(OnDay([m1], day, day(r)) + [r] + [m2], day))))
      == Ok(fs[newDir := map[day(r) := [m1, r, m2]]])
  {
    var d, all := day(r), [m1, r, m2];
    assert DayFiles([m1], day) - {d} == map[] by {
      DayFilesOfRun([m1], day, d);
    }
    assert Renamed(Overwrite(fs, newDir, map[]), oldDir, newDir) == Ok(fs);
    assert OnDay([m1], day, d) + [r] + [m2] == all by {
      OnDayAll([m1], day, d);
    }
    assert Overwrite(fs, newDir, DayFiles(all, day)) == fs[newDir := map[d := all]] by {
      DayFilesOfRun(all, day, d);
      OverwriteOne(fs, newDir, d, all);
      assert FilesOf(fs, newDir)[d := all] == map[d := all];
    }
  }

  /** A channel renamed on a new day, exported under its current name: the
      finished day is written into the current name's directory, the
      rename finds nothing to move, and the new day goes beside it. */
  lemma RenameNextDay(fs: Dirs, oldDir: string, newDir: string, m1: Message, r: Message, m2: Message,
                      day: Message -> DayKey)
    requires newDir in fs && fs[newDir] == map[] && oldDir !in fs && oldDir != newDir
    requires Dated([m1, r, m2], day) && Ord(day(m1)) < Ord(day(r)) && day(r) == day(m2)
    requires !IsRename(m1, Channel) && !IsRename(m2, Channel)
    requires r.subtype == Some(Channel.RenameFlag()) && r.oldName == Some(oldDir) && r.name == Some(newDir)
    ensures Partitioned(fs, newDir, [m1, r, m2], Channel)
      == Ok(fs[newDir := map[day(m1) := [m1], day(r) := [r, m2]]])
  {
    assert [m1] + [r] + [m2] == [m1, r, m2];
    assert DaySorted([m1, r, m2], day);
    WalkAcrossRename(fs, newDir, [m1], r, [m2], Channel, day);
    NextDayFiles(fs, oldDir, newDir, m1, r, m2, day);
  }

  lemma NextDayFiles(fs: Dirs, oldDir: string, newDir: string, m1: Message, r: Message, m2: Message,
                     day: Message -> DayKey)
    requires newDir in fs && fs[newDir] == map[] && oldDir !in fs
    requires day(m1) != day(r) && day(r) == day(m2)
    ensures (var fs2 :- Renamed(Overwrite(fs, newDir, DayFiles([m1], day) - {day(r)}), oldDir, newDir);
             Ok(Overwrite(fs2, newDir, DayFiles(OnDay([m1], day, day(r)) + [r] + [m2], day))))
      == Ok(fs[newDir := map[day(m1) := [m1], day(r) := [r, m2]]])
  {
    var d1, d2 := day(m1), day(r);
    var fs2 := fs[newDir := map[d1 := [m1]]];
    FirstDayStays(fs, oldDir, newDir, m1, d2, day);
    SecondDayFile(m1, r, m2, day);
    OverwriteOne(fs2, newDir, d2, [r, m2]);
    assert FilesOf(fs2, newDir)[d2 := [r, m2]] == map[d1 := [m1], d2 := [r, m2]];
    assert fs2[newDir := map[d1 := [m1], d2 := [r, m2]]] == fs[newDir := map[d1 := [m1], d2 := [r, m2]]];
  }

  lemma SecondDayFile(m1: Message, r: Message, m2: Message, day: Message -> DayKey)
    requires day(m1) != day(r) && day(r) == day(m2)
    ensures DayFiles(OnDay([m1], day, day(r)) + [r] + [m2], day) == map[day(r) := [r, m2]]
  {
    OnDayNone([m1], day, day(r));
    assert [] + [r] + [m2] == [r, m2];
    DayFilesOfRun([r, m2], day, day(r));
  }

  /** The day written before the rename stays in the current name's
      directory: the old name has nothing to move. */
  lemma FirstDayStays(fs: Dirs, oldDir: string, newDir: string, m1: Message, d2: DayKey, day: Message -> DayKey)
    requires newDir in fs && fs[newDir] == map[] && oldDir !in fs && day(m1) != d2
    ensures Renamed(Overwrite(fs, newDir, DayFiles([m1], day) - {d2}), oldDir, newDir)
      == Ok(fs[newDir := map[day(m1) := [m1]]])
  {
    var d1 := day(m1);
    assert DayFiles([m1], day) - {d2} == map[d1 := [m1]] by {
      DayFilesOfRun([m1], day, d1);
    }
    OverwriteOne(fs, newDir, d1, [m1]);
    assert FilesOf(fs, newDir)[d1 := [m1]] == map[d1 := [m1]];
  }

  lemma OverwriteOne(d: Dirs, dir: string, k: DayKey, messages: seq<Message>)
    ensures Overwrite(d, dir, map[k := messages]) == d[dir := FilesOf(d, dir)[k := messages]]
  {
    assert k in map[k := messages];
    assert FilesOf(d, dir) + map[k := messages] == FilesOf(d, dir)[k := messages];
  }

  /** The file of the empty day marker the pass starts with is never
      written: every day file of a stamped history is named by a date. */
  lemma NoMarkerFile(fs: Dirs, dir: string, s: seq<Message>, roomType: RoomType)
    requires AllStamped(s) && DaySorted(s, DayOf) && NoRenames(s, roomType)
    ensures Partitioned(fs, dir, s, roomType).Ok?
    ensures Lookup(Partitioned(fs, dir, s, roomType).value, dir, NoDay) == Lookup(fs, dir, NoDay)
  {
    PartitionByDay(fs, dir, s, roomType);
  }

  /** A step always ends on a calendar day: every message that has a day
      has a date. */
  lemma StepOnDay(w: Walk, m: Message, roomType: RoomType)
    requires Step(w, m, roomType).Ok?
    ensures Step(w, m, roomType).value.day.Day?
  {
  }

  lemma {:induction false} WalkOnDay(w: Walk, s: seq<Message>, roomType: RoomType)
    requires WalkAll(w, s, roomType).Ok? && (s != [] || w.day.Day?)
    ensures WalkAll(w, s, roomType).value.day.Day?
    decreases |s|
  {
    if s != [] {
      StepOnDay(w, s[0], roomType);
      WalkOnDay(Step(w, s[0], roomType).value, s[1..], roomType);
    }
  }

  /** On every history, renames included, the pass is on the empty start
      marker only before its first message, with nothing collected and the
      tree untouched: each write of the marker's file, the one the first
      message triggers and the last one after an empty history, writes
      nothing. */
  lemma {:induction false} MarkerFlushesNothing(fs: Dirs, dir: string, s: seq<Message>, roomType: RoomType, w: Walk)
    requires WalkAll(Walk(fs, dir, NoDay, []), s, roomType) == Ok(w)
    ensures w.day == NoDay <==> s == []
    ensures w.day == NoDay ==> w == Walk(fs, dir, NoDay, []) && Flush(w) == fs
  {
    if s != [] {
      WalkOnDay(Walk(fs, dir, NoDay, []), s, roomType);
    }
  }

  /** A DM's history never moves: whatever subtypes its messages carry,
      all of its day files go to the directory it started in. */
  lemma DirectMessagesStay(fs: Dirs, dir: string, s: seq<Message>)
    requires AllStamped(s) && DaySorted(s, DayOf)
    ensures Partitioned(fs, dir, s, Im) == Ok(Overwrite(fs, dir, DayFiles(s, DayOf)))
  {
    PartitionByDay(fs, dir, s, Im);
  }

  // ---------------------------------------------------------------------------
  // Reading the day files back in day order gives the history.

  /** The days of the runs of equal days in `s`, in order: for a day-sorted
      history, its days in increasing order. */
  function DayOrder(s: seq<Message>, day: Message -> DayKey): (ks: seq<DayKey>)
    ensures s != [] ==> ks != [] && ks[|ks| - 1] == day(s[|s| - 1])
    decreases |s|
  {
    if s == [] then []
    else
      var ks, d := DayOrder(s[..|s| - 1], day), day(s[|s| - 1]);
      if ks != [] && ks[|ks| - 1] == d then ks else ks + [d]
  }

  predicate Increasing(ks: seq<DayKey>) {
    forall i, j :: 0 <= i < j < |ks| ==> Ord(ks[i]) < Ord(ks[j])
  }

  /** The files named in `ks`, one after the other. */
  function Joined(files: Folder, ks: seq<DayKey>): seq<Message>
    requires forall k | k in ks :: k in files
    decreases |ks|
  {
    if ks == [] then [] else Joined(files, ks[..|ks| - 1]) + files[ks[|ks| - 1]]
  }

  lemma {:induction false} JoinedAgree(f: Folder, g: Folder, ks: seq<DayKey>)
    requires forall k | k in ks :: k in f && k in g && f[k] == g[k]
    ensures Joined(f, ks) == Joined(g, ks)
    decreases |ks|
  {
    if ks != [] {
      JoinedAgree(f, g, ks[..|ks| - 1]);
    }
  }

  /** `s`'s day files, read in `DayOrder`, give `s` back, and that order
      names each day of `s` once, in increasing order. */
  predicate ReadsBack(s: seq<Message>, day: Message -> DayKey) {
    var ks := DayOrder(s, day);
    && (forall k | k in ks :: k in DaysOf(s, day))
    && (forall k | k in DaysOf(s, day) :: k in ks)
    && Increasing(ks)
    && Joined(DayFiles(s, day), ks) == s
  }

  /** A day-sorted history's files, read in day order, give the history
      back: nothing is lost, duplicated or reordered. */
  lemma {:induction false} DayFilesJoin(s: seq<Message>, day: Message -> DayKey)
    requires DaySorted(s, day)
    ensures forall k | k in DayOrder(s, day) :: k in DaysOf(s, day)
    ensures forall k | k in DaysOf(s, day) :: k in DayOrder(s, day)
    ensures Increasing(DayOrder(s, day))
    ensures Joined(DayFiles(s, day), DayOrder(s, day)) == s
    decreases |s|
  {
    if s == [] {
      assert DaysOf(s, day) == {};
    } else {
      var init, m := s[..|s| - 1], s[|s| - 1];
      assert s == init + [m];
      DaySortedSplit(init, [m], day);
      DayFilesJoin(init, day);
      var ks := DayOrder(init, day);
      if ks != [] && ks[|ks| - 1] == day(m) {
        SameDayReadsBack(init, m, day);
      } else {
        NewDayReadsBack(init, m, day);
      }
    }
  }

  lemma SameDayReadsBack(init: seq<Message>, m: Message, day: Message -> DayKey)
    requires ReadsBack(init, day)
    requires DayOrder(init, day) != [] && DayOrder(init, day)[|DayOrder(init, day)| - 1] == day(m)
    ensures ReadsBack(init + [m], day)
  {
    var s, d, ks := init + [m], day(m), DayOrder(init, day);
    var f := DayFiles(init, day);
    assert s[..|s| - 1] == init && s[|s| - 1] == m;
    assert DayOrder(s, day) == ks;
    DaysOfSnoc(init, m, day);
    DayFilesSnoc(init, m, day);
    assert d in DaysOf(init, day);
    assert DayFiles(s, day) == f[d := f[d] + [m]];
    JoinSameDay(f, ks, d, m);
  }

  lemma NewDayReadsBack(init: seq<Message>, m: Message, day: Message -> DayKey)
    requires ReadsBack(init, day) && DaySorted(init, day)
    requires forall x | x in init :: Ord(day(x)) <= Ord(day(m))
    requires !(DayOrder(init, day) != [] && DayOrder(init, day)[|DayOrder(init, day)| - 1] == day(m))
    ensures ReadsBack(init + [m], day)
  {
    var s := init + [m];
    assert s[..|s| - 1] == init && s[|s| - 1] == m;
    assert DayOrder(s, day) == DayOrder(init, day) + [day(m)];
    NewDayParts(init, m, day);
  }

  lemma NewDayParts(init: seq<Message>, m: Message, day: Message -> DayKey)
    requires ReadsBack(init, day) && DaySorted(init, day)
    requires forall x | x in init :: Ord(day(x)) <= Ord(day(m))
    requires !(DayOrder(init, day) != [] && DayOrder(init, day)[|DayOrder(init, day)| - 1] == day(m))
    ensures forall k | k in DayOrder(init, day) + [day(m)] :: k in DaysOf(init + [m], day)
    ensures forall k | k in DaysOf(init + [m], day) :: k in DayOrder(init, day) + [day(m)]
    ensures Increasing(DayOrder(init, day) + [day(m)])
    ensures Joined(DayFiles(init + [m], day), DayOrder(init, day) + [day(m)]) == init + [m]
  {
    NotYetSeen(init, m, day);
    NewDayIncreasing(init, m, day);
    NewDayJoined(init, m, day);
    NewDayKeys(init, m, day);
  }

  lemma NewDayKeys(init: seq<Message>, m: Message, day: Message -> DayKey)
    requires forall k | k in DayOrder(init, day) :: k in DaysOf(init, day)
    requires forall k | k in DaysOf(init, day) :: k in DayOrder(init, day)
    ensures forall k | k in DayOrder(init, day) + [day(m)] :: k in DaysOf(init + [m], day)
    ensures forall k | k in DaysOf(init + [m], day) :: k in DayOrder(init, day) + [day(m)]
  {
    DaysOfSnoc(init, m, day);
  }

  lemma NewDayIncreasing(init: seq<Message>, m: Message, day: Message -> DayKey)
    requires Increasing(DayOrder(init, day)) && DaySorted(init, day)
    requires forall x | x in init :: Ord(day(x)) <= Ord(day(m))
    requires !(DayOrder(init, day) != [] && DayOrder(init, day)[|DayOrder(init, day)| - 1] == day(m))
    ensures Increasing(DayOrder(init, day) + [day(m)])
  {
    var ks := DayOrder(init, day);
    if ks != [] {
      assert init[|init| - 1] in init;
      assert Ord(ks[|ks| - 1]) <= Ord(day(m)) && ks[|ks| - 1] != day(m);
    }
    IncreasingSnoc(ks, day(m));
  }

  lemma NewDayJoined(init: seq<Message>, m: Message, day: Message -> DayKey)
    requires ReadsBack(init, day) && day(m) !in DaysOf(init, day)
    ensures Joined(DayFiles(init + [m], day), DayOrder(init, day) + [day(m)]) == init + [m]
  {
    NewDayFiles(init, m, day);
    JoinNewDay(DayFiles(init, day), DayOrder(init, day), day(m), m);
  }

  /** A day later than the last day of a sorted history's runs is none of
      its days. */
  lemma NotYetSeen(init: seq<Message>, m: Message, day: Message -> DayKey)
    requires DaySorted(init, day) && forall x | x in init :: Ord(day(x)) <= Ord(day(m))
    requires !(DayOrder(init, day) != [] && DayOrder(init, day)[|DayOrder(init, day)| - 1] == day(m))
    ensures day(m) !in DaysOf(init, day)
  {
    if day(m) in DaysOf(init, day) {
      LastIsLatest(init, day);
    }
  }

  lemma NewDayFiles(init: seq<Message>, m: Message, day: Message -> DayKey)
    requires day(m) !in DaysOf(init, day)
    ensures DayFiles(init + [m], day) == DayFiles(init, day)[day(m) := [m]]
  {
    OnDayNone(init, day, day(m));
    assert OnDay(init, day, day(m)) + [m] == [m];
    DayFilesSnoc(init, m, day);
  }

  lemma JoinSameDay(f: Folder, ks: seq<DayKey>, d: DayKey, m: Message)
    requires forall k | k in ks :: k in f
    requires Increasing(ks) && ks != [] && ks[|ks| - 1] == d
    ensures Joined(f[d := f[d] + [m]], ks) == Joined(f, ks) + [m]
  {
    var g, front := f[d := f[d] + [m]], ks[..|ks| - 1];
    forall k | k in front ensures k in f && k in g && f[k] == g[k] {
      var i :| 0 <= i < |front| && front[i] == k;
      assert Ord(ks[i]) < Ord(ks[|ks| - 1]);
    }
    JoinedAgree(f, g, front);
    assert Joined(g, ks) == Joined(g, front) + g[d];
  }

  lemma JoinNewDay(f: Folder, ks: seq<DayKey>, d: DayKey, m: Message)
    requires forall k | k in ks :: k in f && k != d
    ensures Joined(f[d := [m]], ks + [d]) == Joined(f, ks) + [m]
  {
    var ks2 := ks + [d];
    assert ks2[..|ks2| - 1] == ks;
    JoinedAgree(f, f[d := [m]], ks);
  }

  lemma IncreasingSnoc(ks: seq<DayKey>, d: DayKey)
    requires Increasing(ks)
    requires ks != [] ==> Ord(ks[|ks| - 1]) < Ord(d)
    ensures Increasing(ks + [d])
  {
    var ks2 := ks + [d];
    forall i, j | 0 <= i < j < |ks2| ensures Ord(ks2[i]) < Ord(ks2[j]) {
      if j == |ks2| - 1 && i < |ks| - 1 {
        assert Ord(ks[i]) < Ord(ks[|ks| - 1]);
      }
    }
  }
}
