/**
 * Process records and the three transitions the application applies to
 * them: creation from the new-process form, stage advance from the detail
 * view, and document attachment after an upload. Each transition is the
 * record the application writes; the store calls themselves are not modelled.
 */
module Process {
  import opened Wrappers
  import opened Stages

  /** Signed-in user profile: id, display name and role string. */
  datatype User = User(id: string, name: string, role: string)

  /** The privileged role; every other role string is treated as the standard one. */
  const Director: string := "diretor"

  /**
   * Instants used by one transition: `client` stands for the browser's
   * `new Date()`, `server` for the store's server timestamp.
   */
  datatype Clock = Clock(client: int, server: int)

  /**
   * The note on a history entry: the creation note, or the note naming the
   * stage a process was advanced to. `NoteText` gives the text stored.
   */
  datatype Note = Created | AdvancedTo(stageName: string)

  const CreatedText: string := "Processo criado."
  const AdvancedPrefix: string := "Processo avançado para "

  /**
   * The stored text of a note. An advance note is the fixed prefix, the
   * stage label and a closing full stop, so the label can be read back.
   */
  function NoteText(n: Note): (t: string)
    ensures n.Created? ==> t == CreatedText
    ensures n.AdvancedTo? ==>
              && |t| == |AdvancedPrefix| + |n.stageName| + 1
              && t[..|AdvancedPrefix|] == AdvancedPrefix
              && t[|AdvancedPrefix|..|t| - 1] == n.stageName
              && t[|t| - 1] == '.'
  {
    match n
    case Created => "Processo criado."
    case AdvancedTo(stageName) => "Processo avançado para " + stageName + "."
  }

  /** Distinct notes are stored as distinct texts: the datatype loses nothing. */
  lemma NoteTextInjective(a: Note, b: Note)
    ensures NoteText(a) == NoteText(b) ==> a == b
  {
    if NoteText(a) == NoteText(b) {
      if a.AdvancedTo? && b.AdvancedTo? {
        var t := NoteText(a);
        assert a.stageName == t[|AdvancedPrefix|..|t| - 1] == b.stageName;
      }
    }
  }

  datatype HistoryEntry = HistoryEntry(stage: StageRef, changedBy: string, timestamp: int, notes: Note)

  datatype DocumentRef = DocumentRef(name: string, url: string, uploadedAt: int, uploadedBy: string)

  /** A file chosen in the upload control; only its name reaches the record. */
  datatype File = File(name: string)

  /**
   * A stored process. `currentStage` is the stored stage string as read by
   * `Parse`. `deadline` is `deadlines.final` as an instant, absent
   * when missing or not a date. `documents` and `history` may be missing
   * on a stored record, which the transitions read as empty lists.
   */
  datatype ProcessRecord = ProcessRecord(
    id: string,
    title: string,
    processNumber: string,
    currentStage: StageRef,
    status: string,
    createdBy: string,
    assignedTo: string,
    createdAt: int,
    updatedAt: int,
    deadline: Option<int>,
    documents: Option<seq<DocumentRef>>,
    history: Option<seq<HistoryEntry>>)

  const InProgress: string := "em_andamento"

  /** The history of a record, a missing one read as empty. */
  function History(p: ProcessRecord): seq<HistoryEntry> {
    p.history.GetOr([])
  }

  /** The documents of a record, a missing list read as empty. */
  function Documents(p: ProcessRecord): seq<DocumentRef> {
    p.documents.GetOr([])
  }

  /**
   * The workflow invariant: the current stage is a registry id, and the
   * history is non-empty and ends with an entry for that stage.
   */
  predicate Valid(p: ProcessRecord) {
    && p.currentStage.Known?
    && |History(p)| > 0
    && Last(History(p)).stage == p.currentStage
  }

  /** `after` is `before` with exactly one more element at the end. */
  predicate AppendsOne<T(==)>(before: seq<T>, after: seq<T>) {
    |after| == |before| + 1 && after[..|before|] == before
  }

  /** The last element of a non-empty sequence. */
  function Last<T>(xs: seq<T>): T
    requires |xs| > 0
  {
    xs[|xs| - 1]
  }

  /** JavaScript truthiness of an optional string: present and non-empty. */
  predicate Truthy(s: Option<string>) {
    s.Some? && s.value != ""
  }

  /**
   * The record the new-process form writes. `id` is the id the store
   * assigns; title, number and deadline are taken as entered.
   */
  function Create(id: string, title: string, processNumber: string, deadline: Option<int>,
                  creator: User, clock: Clock): (p: ProcessRecord)
    ensures Valid(p)
    ensures p.currentStage == Known(First) && p.status == InProgress
    ensures p.createdBy == creator.id && p.assignedTo == creator.id
    ensures p.documents == Some([])
    ensures History(p) == [HistoryEntry(Known(First), creator.name, clock.client, Created)]
    ensures p.title == title && p.processNumber == processNumber && p.deadline == deadline
    ensures p.id == id && p.createdAt == clock.server && p.updatedAt == clock.server
  {
    ProcessRecord(
      id := id,
      title := title,
      processNumber := processNumber,
      currentStage := Parse("iniciacao"),
      status := "em_andamento",
      createdBy := creator.id,
      assignedTo := creator.id,
      createdAt := clock.server,
      updatedAt := clock.server,
      deadline := deadline,
      documents := Some([]),
      history := Some([HistoryEntry(Parse("iniciacao"), creator.name, clock.client, Created)]))
  }

  /**
   * What a stage-advance request does. `Skipped`: the target is absent or
   * empty and nothing happens. `Rejected`: the target is not a registry id,
   * the lookup of its label fails before any write, and the record stays as
   * it was. `Written`: the record that is written.
   */
  datatype AdvanceOutcome = Skipped | Rejected | Written(record: ProcessRecord)

  /** The record after an advance request, whatever its outcome. */
  function After(p: ProcessRecord, o: AdvanceOutcome): (r: ProcessRecord)
    ensures o.Written? ==> r == o.record
    ensures !o.Written? ==> r == p
  {
    match o
    case Written(q) => q
    case _ => p
  }

  /** Fields that an advance never touches agree between `p` and `q`. */
  predicate SameExceptAdvance(p: ProcessRecord, q: ProcessRecord) {
    && q.id == p.id
    && q.title == p.title
    && q.processNumber == p.processNumber
    && q.status == p.status
    && q.createdBy == p.createdBy
    && q.createdAt == p.createdAt
    && q.deadline == p.deadline
    && q.documents == p.documents
  }

  /**
   * Advance `p` to `newStage`, reassigning it to `assignedToId` when that
   * is truthy. The written record moves to the target stage and gains one
   * history entry at the end; nothing else but the assignee and the update
   * time changes.
   */
  function Advance(p: ProcessRecord, newStage: Option<string>, assignedToId: Option<string>,
                   actor: User, clock: Clock): (o: AdvanceOutcome)
    ensures o.Skipped? <==> !Truthy(newStage)
    ensures o.Rejected? <==> Truthy(newStage) && forall s: Stage :: Id(s) != newStage.value
    ensures o.Written? ==> o.record.currentStage.Known? && Id(o.record.currentStage.stage) == newStage.value
    ensures o.Written? ==> AppendsOne(History(p), History(o.record))
    ensures o.Written? ==>
              && o.record.currentStage.Known?
              && Last(History(o.record)) == HistoryEntry(o.record.currentStage, actor.name, clock.client,
                                                         AdvancedTo(Label(o.record.currentStage.stage)))
    ensures o.Written? ==> o.record.assignedTo == (if Truthy(assignedToId) then assignedToId.value else p.assignedTo)
    ensures o.Written? ==> o.record.updatedAt == clock.server && SameExceptAdvance(p, o.record)
  {
    if !Truthy(newStage) then Skipped
    else match Parse(newStage.value)
      case Unknown(_) => Rejected
      case Known(s) =>
        var entry := HistoryEntry(Known(s), actor.name, clock.client, AdvancedTo(Label(s)));
        Written(p.(
          currentStage := Known(s),
          assignedTo := if Truthy(assignedToId) then assignedToId.value else p.assignedTo,
          updatedAt := clock.server,
          history := Some(History(p) + [entry])))
  }

  /**
   * Record `file` as a document of `p` once its bytes are stored under
   * `url`. Without a selected file nothing happens; otherwise one entry
   * named after the file is appended and every other field is kept.
   */
  function Attach(p: ProcessRecord, file: Option<File>, url: string, uploader: User, clock: Clock): (r: ProcessRecord)
    ensures file.None? ==> r == p
    ensures file.Some? ==> AppendsOne(Documents(p), Documents(r))
    ensures file.Some? ==> Last(Documents(r)) == DocumentRef(file.value.name, url, clock.client, uploader.name)
    ensures r == p.(documents := r.documents)
  {
    match file
    case None => p
    case Some(f) =>
      p.(documents := Some(Documents(p) + [DocumentRef(f.name, url, clock.client, uploader.name)]))
  }
}
