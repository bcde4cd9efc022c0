/** The steps of an export run around the histories: the user maps, the
    channel listing the viewer reads, and the placeholder channel created
    when only private conversations are exported. */
module Export {
  import opened Types
  import opened Seqs
  import opened Files
  import opened Selection

  // ---------------------------------------------------------------------------
  // The user maps.

  /** The map a listing builds by storing `value(u)` under `key(u)` for each
      user in turn: a key listed twice keeps the later value. */
  function LastWins(users: seq<User>, key: User -> string, value: User -> string): map<string, string>
    decreases |users|
  {
    if users == [] then map[]
    else
      var u := users[|users| - 1];
      LastWins(users[..|users| - 1], key, value)[key(u) := value(u)]
  }

  function Id(u: User): string { u.id }
  function Name(u: User): string { u.name }

  /** User id to user name. */
  function NamesById(users: seq<User>): map<string, string> {
    LastWins(users, Id, Name)
  }

  /** User name to user id. */
  function IdsByName(users: seq<User>): map<string, string> {
    LastWins(users, Name, Id)
  }

  /** The keys are exactly those of the users listed. */
  lemma {:induction false} LastWinsKeys(users: seq<User>, key: User -> string, value: User -> string, k: string)
    ensures k in LastWins(users, key, value) <==> exists i | 0 <= i < |users| :: key(users[i]) == k
    decreases |users|
  {
    if users != [] {
      var init := users[..|users| - 1];
      LastWinsKeys(init, key, value, k);
      if exists i | 0 <= i < |init| :: key(init[i]) == k {
        var i :| 0 <= i < |init| && key(init[i]) == k;
        assert users[i] == init[i];
      }
      if exists i | 0 <= i < |users| :: key(users[i]) == k {
        var i :| 0 <= i < |users| && key(users[i]) == k;
        if i < |init| {
          assert init[i] == users[i];
        }
      }
    }
  }

  /** A key holds the value of the last user listed with it. */
  lemma {:induction false} LastWinsValue(users: seq<User>, key: User -> string, value: User -> string, i: nat)
    requires i < |users|
    requires forall j | i < j < |users| :: key(users[j]) != key(users[i])
    ensures key(users[i]) in LastWins(users, key, value)
    ensures LastWins(users, key, value)[key(users[i])] == value(users[i])
    decreases |users|
  {
    if i < |users| - 1 {
      var init := users[..|users| - 1];
      assert init[i] == users[i];
      forall j | i < j < |init| ensures key(init[j]) != key(init[i]) {
        assert init[j] == users[j];
      }
      LastWinsValue(init, key, value, i);
    }
  }

  lemma LastWinsSnoc(m: map<string, string>, users: seq<User>, u: User, key: User -> string, value: User -> string)
    ensures m + LastWins(users + [u], key, value) == (m + LastWins(users, key, value))[key(u) := value(u)]
  {
    assert (users + [u])[..|users|] == users;
  }

  /** The two maps the exporter keeps from the user listing. */
  class UserMaps {
    var namesById: map<string, string>
    var idsByName: map<string, string>

    constructor ()
      ensures namesById == map[] && idsByName == map[]
    {
      namesById, idsByName := map[], map[];
    }

    /** Stores every user under its id and under its name, one after the
      other. */
    method GetUserMap(users: seq<User>)
      modifies this
      ensures namesById == old(namesById) + NamesById(users)
      ensures idsByName == old(idsByName) + IdsByName(users)
    {
      for i := 0 to |users|
        invariant namesById == old(namesById) + NamesById(users[..i])
        invariant idsByName == old(idsByName) + IdsByName(users[..i])
      {
        var user := users[i];
        LastWinsSnoc(old(namesById), users[..i], user, Id, Name);
        LastWinsSnoc(old(idsByName), users[..i], user, Name, Id);
        assert users[..i + 1] == users[..i] + [user];
        namesById := namesById[user.id := user.name];
        idsByName := idsByName[user.name := user.id];
      }
      assert users[..|users|] == users;
    }
  }

  // ---------------------------------------------------------------------------
  // The channel listing.

  predicate IsMpim(g: Conversation) { g.isMpim }
  predicate IsPrivate(g: Conversation) { !g.isMpim }

  /** Splits the private conversations into private channels and group
      DMs, each in listing order. */
  method SplitGroups(groups: seq<Conversation>) returns (private: seq<Conversation>, mpim: seq<Conversation>)
    ensures private == Filter(groups, IsPrivate)
    ensures mpim == Filter(groups, IsMpim)
  {
    private, mpim := [], [];
    for i := 0 to |groups|
      invariant private == Filter(groups[..i], IsPrivate)
      invariant mpim == Filter(groups[..i], IsMpim)
    {
      var group := groups[i];
      SplitStep(groups, i);
      if group.isMpim {
        mpim := mpim + [group];
        continue;
      }
      private := private + [group];
    }
    assert groups[..|groups|] == groups;
  }

  lemma SplitStep(groups: seq<Conversation>, i: nat)
    requires i < |groups|
    ensures Filter(groups[..i + 1], IsPrivate) == Filter(groups[..i], IsPrivate) + (if groups[i].isMpim then [] else [groups[i]])
    ensures Filter(groups[..i + 1], IsMpim) == Filter(groups[..i], IsMpim) + (if groups[i].isMpim then [groups[i]] else [])
  {
    assert groups[..i + 1] == groups[..i] + [groups[i]];
    FilterSnoc(groups[..i], groups[i], IsPrivate);
    FilterSnoc(groups[..i], groups[i], IsMpim);
  }

  /** Every private conversation lands in exactly one of the two lists, and
      each list keeps the listing order. */
  lemma GroupsPartition(groups: seq<Conversation>)
    ensures multiset(Filter(groups, IsPrivate)) + multiset(Filter(groups, IsMpim)) == multiset(groups)
    ensures IsSubsequence(Filter(groups, IsPrivate), groups) && IsSubsequence(Filter(groups, IsMpim), groups)
    ensures forall g | g in Filter(groups, IsPrivate) :: !g.isMpim
    ensures forall g | g in Filter(groups, IsMpim) :: g.isMpim
  {
    FilterSplits(groups, IsPrivate, IsMpim);
    FilterIsSubsequence(groups, IsPrivate);
    FilterIsSubsequence(groups, IsMpim);
    forall g | g in Filter(groups, IsPrivate) ensures !g.isMpim {
      var r := Filter(groups, IsPrivate);
      var i :| 0 <= i < |r| && r[i] == g;
    }
    forall g | g in Filter(groups, IsMpim) ensures g.isMpim {
      var r := Filter(groups, IsMpim);
      var i :| 0 <= i < |r| && r[i] == g;
    }
  }

  /** A 1:1 DM as the viewer wants it: its members are the partner and the
      owner of the token. */
  function WithMembers(dm: Dm, owner: string): (r: Dm)
    ensures r.id == dm.id && r.user == dm.user
    ensures r.members == Some([dm.user, owner])
  {
    dm.(members := Some([dm.user, owner]))
  }

  /** Sets the members of every 1:1 DM, in place. */
  method SetDmMembers(dms: array<Dm>, owner: string)
    modifies dms
    ensures forall i | 0 <= i < dms.Length :: dms[i] == WithMembers(old(dms[i]), owner)
  {
    for i := 0 to dms.Length
      invariant forall j | 0 <= j < i :: dms[j] == WithMembers(old(dms[j]), owner)
      invariant forall j | i <= j < dms.Length :: dms[j] == old(dms[j])
    {
      dms[i] := WithMembers(dms[i], owner);
    }
  }

  /** Prepares the channel listing: the private channels and group DMs
      apart, and the members of every 1:1 DM. Writing the four listing files
      is not modelled. */
  method DumpChannelFile(groups: seq<Conversation>, dms: array<Dm>, owner: string)
    returns (private: seq<Conversation>, mpim: seq<Conversation>)
    modifies dms
    ensures private == Filter(groups, IsPrivate) && mpim == Filter(groups, IsMpim)
    ensures forall i | 0 <= i < dms.Length :: dms[i] == WithMembers(old(dms[i]), owner)
  {
    private, mpim := SplitGroups(groups);
    SetDmMembers(dms, owner);
  }

  // ---------------------------------------------------------------------------
  // The placeholder channel.

  /** Creates the directory of the first public channel so the viewer has a
      channel to show. The empty day file it then writes is never created,
      since writing no messages writes nothing. There is no first channel
      when the workspace has none. */
  method DumpDummyChannel(fs: FileSystem, channels: seq<Conversation>, today: DayKey) returns (r: Outcome)
    modifies fs
    ensures r.Pass? <==> channels != []
    ensures r.Fail? ==> r.error == NoChannels && fs.dirs == old(fs.dirs)
    ensures r.Pass? ==> fs.dirs == MadeDir(old(fs.dirs), channels[0].name)
  {
    if channels == [] {
      return Fail(NoChannels);
    }
    var channelName := channels[0].name;
    fs.MkDir(channelName);
    fs.WriteMessageFile(channelName, today, []);
    return Pass;
  }

  /** The run's step before the private conversations are fetched: when
      some are selected and no public channel is, the placeholder channel
      is created, whether or not the run is a dry run. */
  method BeforeGroups(fs: FileSystem, selected: Selected, channels: seq<Conversation>, today: DayKey)
    returns (r: Outcome)
    modifies fs
    ensures selected.groups == [] || selected.channels != [] ==> r == Pass && fs.dirs == old(fs.dirs)
    ensures selected.groups != [] && selected.channels == [] ==>
      if channels == [] then r == Fail(NoChannels) && fs.dirs == old(fs.dirs)
      else r == Pass && fs.dirs == MadeDir(old(fs.dirs), channels[0].name)
  {
    r := Pass;
    if |selected.groups| > 0 {
      if |selected.channels| == 0 {
        r := DumpDummyChannel(fs, channels, today);
      }
    }
  }
}
