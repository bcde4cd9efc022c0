/** Which conversations an export covers: the command-line lists of names,
    the filters that apply them, the interactive picker, and the case
    analysis that chooses between them. */
module Selection {
  import opened Types
  import opened Seqs

  /** One command-line option taking names: absent, or given with a list of
      names that may be empty. */
  datatype Arg = Absent | Listed(names: seq<string>)

  /** The options that decide the selection. */
  datatype Args = Args(publicChannels: Arg, groups: Arg, directMessages: Arg, prompt: bool)

  /** The conversations whose name is one of `names`, in listing order. */
  function FilterConversationsByName(all: seq<Conversation>, names: seq<string>): (r: seq<Conversation>)
    ensures forall i | 0 <= i < |r| :: r[i] in all && r[i].name in names
    ensures forall i | 0 <= i < |all| && all[i].name in names :: all[i] in r
    ensures IsSubsequence(r, all)
  {
    var keep := (c: Conversation) => c.name in names;
    FilterIsSubsequence(all, keep);
    Filter(all, keep)
  }

  /** What one command-line entry names: the id of the user of that name if
      there is one, and otherwise the entry itself, taken as an id. */
  function ResolveUserId(idsByName: map<string, string>, nameOrId: string): string {
    if nameOrId in idsByName then idsByName[nameOrId] else nameOrId
  }

  function ResolveUserIds(idsByName: map<string, string>, namesOrIds: seq<string>): (ids: seq<string>)
    ensures |ids| == |namesOrIds|
    ensures forall i | 0 <= i < |ids| :: ids[i] == ResolveUserId(idsByName, namesOrIds[i])
    decreases |namesOrIds|
  {
    if namesOrIds == [] then []
    else [ResolveUserId(idsByName, namesOrIds[0])] + ResolveUserIds(idsByName, namesOrIds[1..])
  }

  /** The 1:1 DMs with one of the users the entries name, in listing
      order. */
  function FilterDirectMessagesByUserNameOrId(dms: seq<Dm>, idsByName: map<string, string>, namesOrIds: seq<string>): (r: seq<Dm>)
    ensures forall i | 0 <= i < |r| :: r[i] in dms && r[i].user in ResolveUserIds(idsByName, namesOrIds)
    ensures forall i | 0 <= i < |dms| && dms[i].user in ResolveUserIds(idsByName, namesOrIds) :: dms[i] in r
    ensures IsSubsequence(r, dms)
  {
    var ids := ResolveUserIds(idsByName, namesOrIds);
    var keep := (dm: Dm) => dm.user in ids;
    FilterIsSubsequence(dms, keep);
    Filter(dms, keep)
  }

  /** The conversations at the indices the picker returned, in the order
      it returned them. */
  function Picked<T>(all: seq<T>, picks: seq<nat>): (r: seq<T>)
    requires forall i | 0 <= i < |picks| :: picks[i] < |all|
    ensures |r| == |picks|
    ensures forall i | 0 <= i < |r| :: r[i] == all[picks[i]]
    decreases |picks|
  {
    if picks == [] then [] else [all[picks[0]]] + Picked(all, picks[1..])
  }

  /** Whether any of the three conversation options was given. */
  predicate AnyConversationsSpecified(args: Args) {
    args.publicChannels.Listed? || args.groups.Listed? || args.directMessages.Listed?
  }

  /** The conversations of one kind to export. A non-empty list of names
      filters them; an option given without names, or no option of any
      kind, means all of them (or those picked, when prompting); an option
      missing while another kind's is given means none. `filter` stands for
      the kind's filter and `picks` for the picker's answer. */
  function SelectConversations<T>(all: seq<T>, arg: Arg, args: Args,
                                  filter: seq<string> -> seq<T>, picks: seq<nat>): seq<T>
    requires forall i | 0 <= i < |picks| :: picks[i] < |all|
  {
    if arg.Listed? && |arg.names| > 0 then filter(arg.names)
    else if arg.Listed? || !AnyConversationsSpecified(args) then
      if args.prompt then Picked(all, picks) else all
    else []
  }

  // ---------------------------------------------------------------------------
  // The selections of one run.

  /** What `--publicChannels`, `--groups` and `--directMessages` select. */
  datatype Selected = Selected(channels: seq<Conversation>, groups: seq<Conversation>, dms: seq<Dm>)

  /** The picker's answers for the three kinds. */
  datatype Picks = Picks(channels: seq<nat>, groups: seq<nat>, dms: seq<nat>)

  predicate PicksInRange(p: Picks, channels: seq<Conversation>, groups: seq<Conversation>, dms: seq<Dm>) {
    && (forall i | 0 <= i < |p.channels| :: p.channels[i] < |channels|)
    && (forall i | 0 <= i < |p.groups| :: p.groups[i] < |groups|)
    && (forall i | 0 <= i < |p.dms| :: p.dms[i] < |dms|)
  }

  function SelectAll(args: Args, channels: seq<Conversation>, groups: seq<Conversation>, dms: seq<Dm>,
                     idsByName: map<string, string>, p: Picks): Selected
    requires PicksInRange(p, channels, groups, dms)
  {
    Selected(
      SelectConversations(channels, args.publicChannels, args, names => FilterConversationsByName(channels, names), p.channels),
      SelectConversations(groups, args.groups, args, names => FilterConversationsByName(groups, names), p.groups),
      SelectConversations(dms, args.directMessages, args, ids => FilterDirectMessagesByUserNameOrId(dms, idsByName, ids), p.dms))
  }

  // ---------------------------------------------------------------------------
  // What the case analysis means.

  /** A non-empty list of channel names selects exactly the listed
      channels, in listing order, whatever the other options say. */
  lemma NamedChannels(args: Args, channels: seq<Conversation>, groups: seq<Conversation>, dms: seq<Dm>,
                      idsByName: map<string, string>, p: Picks)
    requires PicksInRange(p, channels, groups, dms)
    requires args.publicChannels.Listed? && args.publicChannels.names != []
    ensures var r := SelectAll(args, channels, groups, dms, idsByName, p).channels;
      && IsSubsequence(r, channels)
      && (forall c | c in r :: c.name in args.publicChannels.names)
      && (forall i | 0 <= i < |channels| && channels[i].name in args.publicChannels.names :: channels[i] in r)
  {
    var names := args.publicChannels.names;
    FilterIsSubsequence(channels, (c: Conversation) => c.name in names);
  }

  /** A DM listed by its partner's user name or by the partner's id is
      selected; so is one whose partner is unknown, listed by id. */
  lemma NamedDirectMessages(dms: seq<Dm>, idsByName: map<string, string>, entries: seq<string>, i: nat, e: string)
    requires i < |dms| && e in entries
    requires (e in idsByName && idsByName[e] == dms[i].user) || (e !in idsByName && e == dms[i].user)
    ensures dms[i] in FilterDirectMessagesByUserNameOrId(dms, idsByName, entries)
  {
    var j :| 0 <= j < |entries| && entries[j] == e;
    assert ResolveUserIds(idsByName, entries)[j] == dms[i].user;
  }

  /** With no conversation option and no prompting, everything is
      exported. */
  lemma NothingSpecifiedSelectsAll(args: Args, channels: seq<Conversation>, groups: seq<Conversation>, dms: seq<Dm>,
                                   idsByName: map<string, string>, p: Picks)
    requires PicksInRange(p, channels, groups, dms)
    requires !AnyConversationsSpecified(args) && !args.prompt
    ensures SelectAll(args, channels, groups, dms, idsByName, p) == Selected(channels, groups, dms)
  {
  }

  /** Naming only some kinds exports none of the others; the kinds named
      without names are exported in full. */
  lemma UnnamedKindsAreSkipped(args: Args, channels: seq<Conversation>, groups: seq<Conversation>, dms: seq<Dm>,
                               idsByName: map<string, string>, p: Picks)
    requires PicksInRange(p, channels, groups, dms)
    requires args.groups == Listed([]) && args.publicChannels.Absent? && !args.prompt
    ensures SelectAll(args, channels, groups, dms, idsByName, p).channels == []
    ensures SelectAll(args, channels, groups, dms, idsByName, p).groups == groups
    ensures args.directMessages.Absent? ==> SelectAll(args, channels, groups, dms, idsByName, p).dms == []
  {
  }

  /** With `--prompt`, an option without names or no option at all
      exports what the picker returned. */
  lemma PromptDecides<T>(all: seq<T>, arg: Arg, args: Args, filter: seq<string> -> seq<T>, picks: seq<nat>)
    requires forall i | 0 <= i < |picks| :: picks[i] < |all|
    requires args.prompt && (arg == Listed([]) || (arg.Absent? && !AnyConversationsSpecified(args)))
    ensures SelectConversations(all, arg, args, filter, picks) == Picked(all, picks)
  {
  }

  /** The three outcomes of the case analysis, in the order they are
      tried. */
  lemma SelectCases<T>(all: seq<T>, arg: Arg, args: Args, filter: seq<string> -> seq<T>, picks: seq<nat>)
    requires forall i | 0 <= i < |picks| :: picks[i] < |all|
    ensures var r := SelectConversations(all, arg, args, filter, picks);
      && (arg.Listed? && arg.names != [] ==> r == filter(arg.names))
      && (arg == Listed([]) || (arg.Absent? && !AnyConversationsSpecified(args)) ==>
            r == if args.prompt then Picked(all, picks) else all)
      && (arg.Absent? && AnyConversationsSpecified(args) ==> r == [])
  {
  }
}
