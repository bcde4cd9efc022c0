# Slack export, modelled in Dafny

`slack_export.py` exports a Slack workspace into a directory tree that a
Slack viewer can read. Each exported conversation gets its own directory with
one JSON file per day, `<room dir>/<YYYY-MM-DD>.json`, holding that day's
messages. This project models the core of the exporter and proves what it
does:

- **Timestamps** (`timestamps.dfy`). A Slack `ts` such as
  `"1500000000.000100"` is split on `.`. With no `.` it yields no time, with
  more than one `.` it is an error, and otherwise its whole-seconds part names
  a second. For fixed-width stamps, string order never puts a later second
  before an earlier one.
- **The export tree** (`filesystem.dfy`). The tree is a map from directory
  name to that directory's day files. `FileSystem` is the mutable
  filesystem, with the exporter's three operations on it:
  - `mkdir`
  - `write_message_file`: writes nothing when there are no messages
  - `channel_rename`: moves files one at a time and fails on a name collision
- **Day partitioning** (`partition.dfy`). `parse_messages` runs as a loop
  over the sorted history. It is proved against a functional reference
  definition, and lemmas about that reference state the outcome:
  - one file per day, holding exactly that day's messages in order
  - the files, read in day order, give back the input
  - no file for the empty start marker
  - the effect of a rename event, which moves the files of the `old_name`
    directory, if it exists, into `name`, and switches the directory for
    every later write, including the day in progress
  - DM histories never move
- **Downloading a history** (`history.dfy`). `get_history` is a
  `while true` loop over a paging oracle, followed by a stable sort on `ts`.
  It is proved to:
  - send the right cursors
  - stop at the first last page
  - fail only on an empty first page that says more follow
  - return a sorted permutation of everything received
- **Selection** (`selection.dfy`). Covers the name and user filters, the
  picker, and the case analysis of `select_conversations`.
- **The rest of a run** (`export.dfy`):
  - the user maps
  - the channel listing: the private/group-DM split and the DM member lists
  - the placeholder channel created when only private conversations are
    exported

Errors that abort a run in Python are values of `ExportError`, carried in a
`Result` or an `Outcome`. Every `ExportError` value is such an uncaught
exception.

Two consequences of the code are easy to miss:

- **Placeholder channel.** The comment at slack_export.py:280-281 says that
  `dump_dummy_channel` creates an empty channel, so that the viewer has one
  to show. It calls `write_message_file` with an empty list (line 287), and
  that function returns at lines 63-64 before writing anything. So only the
  channel's directory is created, and no day file (`Export.DumpDummyChannel`).
- **Dry run.** The `--dryRun` help at line 308 says a dry run does not fetch
  or write history. The placeholder call at lines 383-385 is not guarded by
  `dry_run`, so a dry run that selects groups but no public channel still
  creates the placeholder directory (`Export.BeforeGroups` takes no dry-run
  flag).

## Model

| member | source | states |
|---|---|---|
| `TimeStamps.Split` | slack_export.py:41 | the parts count one more than the separators, and no part contains one |
| `TimeStamps.SplitJoin` | slack_export.py:41 | joining the parts with the separator gives the string back, so the parts are exactly the pieces between separators |
| `TimeStamps.ParseTimeStamp` | slack_export.py:39-45 | the timestamp parser; what it returns is stated by `TimeStamps.ParseTimeStampCases`, `TimeStamps.SameSecondsSameStamp` and `TimeStamps.StampRoundTrip` |
| `TimeStamps.Seconds` | slack_export.py:45 | the whole-seconds part converts exactly when it is a digit string naming a second up to the end of year 9999, to the number it spells |
| `TimeStamps.ParseTimeStampCases` | slack_export.py:39-45 | no `.` yields no time, several are an error, and exactly one yields the conversion of the part before it |
| `TimeStamps.SameSecondsSameStamp` | slack_export.py:39-45 | two stamps with the same whole-seconds part parse alike, whatever follows the `.` |
| `TimeStamps.StampRoundTrip` | slack_export.py:39-45 | rendering a second and any fraction as a `ts` and parsing it gives that second back |
| `TimeStamps.StringOrderIsTimeOrder` | slack_export.py:28 | for stamps with equally long whole-seconds parts, string order implies time order |
| `Files.MadeDir` | slack_export.py:33-35 | creating a directory adds only that directory and changes no file |
| `Files.Written` | slack_export.py:59-70 | an empty list changes nothing; otherwise the directory exists, the file holds exactly the messages, and no other file changes |
| `Files.Renamed` | slack_export.py:49-56 | a missing old directory changes nothing; a name collision fails; otherwise every old file is in the new directory with its content, the new directory's other files stay, the old directory is gone and no other directory changes |
| `Files.FileSystem.MkDir` | slack_export.py:33-35 | the tree becomes `MadeDir` of the old tree |
| `Files.FileSystem.WriteMessageFile` | slack_export.py:59-70 | the tree becomes `Written` of the old tree |
| `Files.FileSystem.ChannelRename` | slack_export.py:49-56 | the file-by-file move succeeds exactly when `Renamed` does and then leaves its tree; on a collision every file is in one of the two directories with its content and nothing else changed |
| `Files.MoveCollision` | slack_export.py:54-55 | a move onto a name the new directory already holds means the whole rename fails |
| `Partition.MessageDay` | slack_export.py:81-82 | a message's day, when it has one, is a calendar day, never the empty marker |
| `Partition.Partitioned` | slack_export.py:74-101 | an empty history changes nothing |
| `Partition.StepFails` | slack_export.py:81-82 | a `ts` that does not parse, or has no `.`, aborts the pass with that error |
| `Partition.WalkAllFails` | slack_export.py:79-99 | the first message whose step fails aborts the whole pass with its error |
| `Partition.ParseMessages` | slack_export.py:74-101 | the loop succeeds exactly when the reference pass does and leaves the tree it computes, and otherwise fails with its error |
| `Partition.OnDayMembers` | slack_export.py:85-99 | a day's file holds exactly the messages of that day, in input order |
| `Partition.PartitionByDay` | slack_export.py:74-101 | a day-sorted, stamped history without rename events writes exactly one file per day, holding that day's messages, into the room's directory |
| `Partition.NoMarkerFile` | slack_export.py:85-89 | for a stamped, day-sorted history without rename events the pass succeeds, and the file of the empty start marker is never written |
| `Partition.WalkOnDay` | slack_export.py:79-89 | once a message has been taken, the pass is on a calendar day for good |
| `Partition.MarkerFlushesNothing` | slack_export.py:77-89 | on every history, renames included, the pass is on the empty start marker only before the first message, with nothing collected and the tree untouched, so each write of the marker's file writes nothing |
| `Partition.DayFilesJoin` | slack_export.py:74-101 | read in increasing day order, the day files give back the history: nothing lost, duplicated or reordered |
| `Partition.DirectMessagesStay` | slack_export.py:93 | in a DM every message stays in the starting directory, whatever its subtype |
| `Partition.WalkAcrossRename` | slack_export.py:85-99 | a rename mid-history: the finished days are written into the directory the pass started in; then the files of the `old_name` directory (those days, when the pass started there) are moved to `name`; the day in progress and every later day go to `name` |
| `Partition.PartitionWithRename` | slack_export.py:85-99 | the same, with the days the parser computes |
| `Partition.RenameMidDay` | slack_export.py:85-99 | a channel exported under its current name, whose directory was created empty, and renamed to it in the middle of a day: that whole day, including the messages before the rename, is the one file of that directory, and the old name gets no directory |
| `Partition.RenameNextDay` | slack_export.py:85-99 | the same channel renamed on a new day: the finished day and the rename's day are the two files of the current name's directory, and the old name gets no directory |
| `History.SortByTs` | slack_export.py:28 | the stable sort on `ts`; `History.SortByTsSorts` and `History.SortByTsStable` state that it sorts, permutes and keeps equal stamps in order |
| `History.SortByTsSorts` | slack_export.py:28 | the sorted list is in `ts` order and is a permutation of the input |
| `History.SortByTsStable` | slack_export.py:28 | messages with equal `ts` keep their relative order |
| `History.GetHistory` | slack_export.py:14-30 | the first request has no cursor; each later one carries the `ts` of the last message received; every page but the last said more follow; the result is the sorted concatenation of the pages; an empty first page saying more follow fails |
| `History.DownloadedAnyBound` | slack_export.py:18-27 | the result does not depend on the request bound it was computed under |
| `History.FetchAfterSome` | slack_export.py:20-23 | once a message has been received, a later page saying more follow never fails the download |
| `History.DownloadFails` | slack_export.py:22-24 | the download fails exactly when the first page is empty and says more follow |
| `History.DownloadedSorted` | slack_export.py:14-30 | a successful download is in `ts` order and holds every message received as often as the pages did |
| `History.SortedHistoryIsDaySorted` | slack_export.py:28 | a history sorted by fixed-width `ts` is stamped and in day order, as the partition lemmas require |
| `Selection.FilterConversationsByName` | slack_export.py:104-105 | exactly the conversations whose name is listed are kept, in listing order |
| `Selection.ResolveUserIds` | slack_export.py:159 | each entry becomes the id of the user of that name, or stays as given |
| `Selection.FilterDirectMessagesByUserNameOrId` | slack_export.py:158-160 | exactly the DMs whose partner id is among the resolved entries are kept, in listing order |
| `Selection.Picked` | slack_export.py:108-111 | the picked conversations are those at the returned indices, in that order |
| `Selection.AnyConversationsSpecified` | slack_export.py:275-277 | whether any of the three conversation options was given, with or without names; used by `Selection.SelectCases` |
| `Selection.SelectConversations` | slack_export.py:261-271 | the case analysis of one conversation kind; its three outcomes are stated by `Selection.SelectCases` and `Selection.PromptDecides` |
| `Selection.SelectAll` | slack_export.py:362-378 | the three selections of a run; `Selection.NamedChannels`, `Selection.NothingSpecifiedSelectsAll` and `Selection.UnnamedKindsAreSkipped` state what they select |
| `Selection.SelectCases` | slack_export.py:261-277 | a non-empty list filters; an empty list, or no option at all, gives the picker's choice or everything; an option left out while another class has one gives nothing |
| `Selection.NamedChannels` | slack_export.py:263-264 | listing channel names selects exactly those channels, as an order-preserving subsequence |
| `Selection.NamedDirectMessages` | slack_export.py:158-160 | a DM is selected when listed by its partner's name or, for an unknown name, by the partner's id |
| `Selection.NothingSpecifiedSelectsAll` | slack_export.py:265-269 | with no option and no prompt, every conversation of every class is selected |
| `Selection.UnnamedKindsAreSkipped` | slack_export.py:270-271 | with `--groups` given without names and `--publicChannels` absent (and no prompt), every group and no public channel is selected; no DM is selected when `--directMessages` is absent too |
| `Selection.PromptDecides` | slack_export.py:266-267 | with `--prompt`, an empty list or no option gives exactly what the picker returned |
| `Export.NamesById` | slack_export.py:215-218 | user id to user name; `Export.LastWinsKeys` and `Export.LastWinsValue` state its keys and that a repeated id keeps the last name |
| `Export.IdsByName` | slack_export.py:215-219 | user name to user id; `Export.LastWinsKeys` and `Export.LastWinsValue` state its keys and that a repeated name keeps the last id |
| `Export.LastWinsKeys` | slack_export.py:215-219 | a user map has a key exactly for the ids (or names) listed |
| `Export.LastWinsValue` | slack_export.py:215-219 | a key listed more than once keeps the value of its last listing |
| `Export.UserMaps.GetUserMap` | slack_export.py:215-219 | both maps keep their old entries except those the listing overwrites, in listing order |
| `Export.SplitGroups` | slack_export.py:134-141 | the private channels and the group DMs, each in listing order |
| `Export.GroupsPartition` | slack_export.py:134-141 | each private conversation is in exactly one of the two lists, with the right kind, in order |
| `Export.SetDmMembers` | slack_export.py:144-145 | every DM gets the partner and the token owner as members, in place, and nothing else about it changes |
| `Export.DumpChannelFile` | slack_export.py:130-155 | the listing's private/group-DM split and DM members |
| `Export.DumpDummyChannel` | slack_export.py:282-287 | with no public channel it fails; otherwise the first channel's directory exists and no file is written |
| `Export.BeforeGroups` | slack_export.py:383-386 | the placeholder channel is created only when groups are selected and no public channel is; dry runs included |

## Left out

- The Slack Web API (`conversations.history`, `users.list`,
  `conversations.list`, `auth.test`) is not called. The history call is
  the oracle `History.Api`, from cursor to page, with the channel, `oldest`
  and page size fixed for one download. The listings are given sequences.
- The `sleep(1)` pauses have no logical effect and are not modelled.
- `pick`'s interactive UI is replaced by its answer: a list of in-range indices.
- `argparse`, printing and the dry-run listing are left out. In a dry run the
  `fetch_*` functions print and return; nothing of theirs is modelled.
- The loops `fetch_public_channels`, `fetch_groups` and
  `fetch_direct_messages` are not modelled as loops. Each iteration is
  `mkdir`, `History.GetHistory` and `Partition.ParseMessages`, and all three
  are modelled.
- JSON serialisation is not modelled. A day file's content is the
  message list itself.
- The four listing files (`channels.json`, `groups.json`, `mpims.json`,
  `dms.json`) and `users.json` are not modelled as files; only their contents
  are computed, by `Export.DumpChannelFile`.
- The top-level timestamped output directory, `os.chdir`, `finalize` and
  the zip archive are not modelled.
- Messages carry only `ts`, `subtype`, `name`, `old_name` and a text
  standing for everything else.
- A day file is named by its day number since 1970-01-01 (UTC), not by its
  `%Y-%m-%d` string. The two are in one-to-one correspondence and order
  alike, and the empty start marker `''` is `NoDay`, ordered before every day.
- `datetime.today()` is the parameter `today` of `Export.DumpDummyChannel`.
- Some lemmas take the day of a message as a parameter. `Partition.OnDayMembers`
  and `Partition.DayFilesJoin` hold for any day function. `Partition.WalkAcrossRename`,
  `Partition.RenameMidDay` and `Partition.RenameNextDay` hold for any day
  function that agrees with the parser on the history (`Partition.Dated`).
  `Partition.PartitionByDay`, `Partition.NoMarkerFile`,
  `Partition.DirectMessagesStay` and `Partition.PartitionWithRename` use the
  parser's own days.
- The sort in `get_history` is Python's library sort, not a loop in the
  exporter. It is modelled as the stable sort `History.SortByTs`, applied
  to the list.
- `TimeStamps.Seconds`: the model accepts only non-empty strings of ASCII
  digits and reports every other whole-seconds part as invalid. `float()`
  also accepts a leading sign, surrounding whitespace, underscores between
  digits (`"1_500_000_000"`), an exponent (`"15e8"`), `inf`/`nan`, and
  decimal digits of other scripts. Negative seconds, which some platforms
  can convert to a date, are reported invalid too.
- `History.GetHistory` is stated for downloads that end within a given
  number of requests (`History.EndsWithin`). A server that always says more
  follow makes the Python loop run forever; the model does not cover that.
- `Files.FileSystem.ChannelRename` moves files in an arbitrary order, as
  `os.listdir` does. On a collision, which files were moved before it is left
  open.
- Operating-system failures (permissions, disk full) are not modelled.
