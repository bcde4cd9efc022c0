/** The records the exporter works on, and the error and result types that
    stand for the exceptions that abort an export. */
module Types {

  datatype Option<+T> = None | Some(value: T)

  /** The ways an export run aborts. Each stands for an exception the
      exporter does not catch. */
  datatype ExportError =
    | MissingStamp                  // `ts` without a '.': the day name of `None` cannot be formatted
    | InvalidTimeStamp              // `ts` with more than one '.'
    | InvalidSeconds                // the part before '.' is not a number
    | StampOutOfRange               // a second beyond the last one of year 9999
    | MissingField(key: string)     // a rename event without `name` or `old_name`
    | DestinationExists(dir: string) // moving a file onto a name the target directory already has
    | NoLastMessage                 // a first page that is empty but says more pages follow
    | NoChannels                    // the dummy channel is wanted but there is no public channel

  datatype Result<+T> = Ok(value: T) | Err(error: ExportError) {
    predicate IsFailure() { Err? }
    function PropagateFailure<U>(): Result<U>
      requires Err?
    {
      Err(error)
    }
    function Extract(): T
      requires Ok?
    {
      value
    }
  }

  datatype Outcome = Pass | Fail(error: ExportError)

  /** A history message. Only the fields the exporter looks at are modelled;
      `text` stands for everything else the message carries. */
  datatype Message = Message(
    ts: string,
    subtype: Option<string>,
    name: Option<string>,
    oldName: Option<string>,
    text: string)

  /** One page of a conversation's history, as the history call returns it. */
  datatype Page = Page(messages: seq<Message>, hasMore: bool)

  /** A public channel, a private channel or a group DM. */
  datatype Conversation = Conversation(id: string, name: string, isMpim: bool)

  /** A 1:1 DM, keyed by the partner's user id. `members` is absent until the
      channel listing file is prepared. */
  datatype Dm = Dm(id: string, user: string, members: Option<seq<string>>)

  datatype User = User(id: string, name: string)

  /** The conversation kind that decides which rename events apply. */
  datatype RoomType = Channel | Group | Im {
    function Name(): string {
      match this
      case Channel => "channel"
      case Group => "group"
      case Im => "im"
    }

    /** The subtype a rename event of this kind carries. */
    function RenameFlag(): string {
      Name() + "_name"
    }
  }
}
