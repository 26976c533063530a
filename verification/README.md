# Procurement workflow model

A Dafny model of the workflow core of a role-gated contract-management
dashboard, a React single-page client over a hosted document store. Users
create procurement "processes" and move them through nine fixed stages,
from `iniciacao` to `finalizado`. Users also attach documents, and the
dashboard shows each user the processes they may see, plus, for directors,
three counters.

The model takes the handlers of `src/App.jsx` with the store calls removed.
Each handler becomes a pure function from the record it reads to the record
it would write:

- `wrappers.dfy`: module `Wrappers`, the `Option` type.
- `stages.dfy`: module `Stages`. It covers the stage registry (`STAGES` and
  `STAGE_ORDER`), reading a stored stage string, the `indexOf`-based position,
  the label shown in the process list, and the next-stage computation of the
  detail view. The quirk of that computation is modelled as written: a stage
  string the registry does not know has index -1, so its next stage is the
  first stage.
- `process.dfy`: module `Process`. It holds the records (process, history
  entry, document reference, user) and three transitions:
  - `Create`: the record the new-process form writes;
  - `Advance`: the stage advance;
  - `Attach`: the document append after an upload.
- `workflow.dfy`: module `Workflow`. It models the press of the advance
  button as intended: the press requests the computed next stage without
  reassignment, and the display sort is kept off the written history. Its
  lemmas show two things:
  - Every record keeps the workflow invariant: the current stage is a
    registered stage, and the last history entry is for that stage.
  - Presses move the stage one step at a time up to `finalizado`. A run of
    presses is a sequence of `Press` values, each with its own user and instants.
- `dashboard.dfy`: module `Dashboard`, with the role filter on the process
  list and the total / delayed / on-time counters.
- `detailview.dfy`: module `DetailView`, the advance as written over the
  history the detail view has sorted for display.
- `access.dfy`: module `Access`. It covers the sidebar entries, the panel
  the main area renders for the active view, and the director-only counters.

Things the code does that are easy to miss:

- `handleAdvanceStage` accepts any registered stage. Only the button limits
  the request to the successor, so "one step at a time" is proved about
  `Workflow.Click`, not about `Process.Advance`.
- A target string that is not a registry id, and not a key every JavaScript
  object inherits, makes the note's label lookup fail before the write is
  attempted. Nothing is written; the model calls this outcome `Rejected`.
  The button only ever passes registry ids.
- While the detail view renders, it sorts the history newest-first in
  place, and the advance spreads that sorted array. The stored history
  therefore loses its chronological order at the second advance; see
  "## Findings". The `DetailView` module (`detailview.dfy`) models this
  as written.
- An unregistered stage is shown as "Desconhecida". Pressing the button on
  such a record moves it to `iniciacao`.
- No code checks for empty form fields. The only check is the form's HTML
  `required` attributes, so `Create` has no error case.

## Model

| member | source | states |
|---|---|---|
| Stages.StageIds | src/App.jsx:249 | The id list has one id per registered stage, in registry order. |
| Stages.StageIdsInOrder | src/App.jsx:237-249 | The id list is exactly `iniciacao, especificacao, analise_contratos, analise_juridica, autorizacao, licitacao, homologacao, contratacao, finalizado`. |
| Stages.RegistryShape | src/App.jsx:237-249 | There are nine stages. Every stage occurs in the order exactly once, and the nine ids are pairwise distinct. |
| Stages.AllStagesListed | src/App.jsx:237-249 | Every stage occurs in the registry order. |
| Stages.IdsDistinct | src/App.jsx:237-249 | No id occurs twice in the id list. |
| Stages.IdInjective | src/App.jsx:238-246 | Two stages with the same id are the same stage. |
| Stages.Position | src/App.jsx:249 | A stage's position is a valid index of the order, and the order holds that stage there. |
| Stages.PositionOfIndex | src/App.jsx:249 | The stage at index i has position i, so positions and indices are inverse. |
| Stages.LookupIn | src/App.jsx:466 | A found stage has the requested id and comes from the list. Nothing is found exactly when no listed stage has that id. |
| Stages.Lookup | src/App.jsx:466 | A registry hit has the requested id. A miss means no stage has that id. |
| Stages.LookupId | src/App.jsx:237-247 | Looking up a stage's own id finds that stage. |
| Stages.Parse | src/App.jsx:480 | A stored string is read as the stage with that id. Otherwise it is kept verbatim as unknown, and then no stage has it as its id. |
| Stages.ParseKnownIff | src/App.jsx:480 | A stored string reads as a registered stage exactly when it is in the id list. |
| Stages.ParseId | src/App.jsx:470 | A stage's id is non-empty and reads back as that stage. |
| Stages.RawParse | src/App.jsx:463-470 | Reading a stored stage string and writing it back gives the same string, for every string. |
| Stages.Index | src/App.jsx:480 | The index lies in -1..8. It is -1 exactly for an unknown stage, and otherwise the order holds that stage at the index. |
| Stages.IndexOf | src/App.jsx:480 | The result is -1 exactly when the value is absent. Otherwise it is the first position holding the value. |
| Stages.IndexOfDistinct | src/App.jsx:480 | On a list without repetitions, `indexOf` of the element at k is k. |
| Stages.IndexIsIndexOf | src/App.jsx:480 | For every stored string, the model's index equals `indexOf` over the id list, unknown strings included. |
| Stages.DisplayLabel | src/App.jsx:341 | A registered stage shows its own label. An unknown stage shows "Desconhecida". |
| Stages.DisplayLabelOfStored | src/App.jsx:341 | A stored string shows "Desconhecida" exactly when it is not in the id list. |
| Stages.LabelNotUnknown | src/App.jsx:238-246 | No registered label equals "Desconhecida". |
| Stages.NextStage | src/App.jsx:480-481 | There is no next stage exactly at `finalizado`. An unknown stage's next stage is the first one. Otherwise the next stage is one position further on. |
| Stages.NextOfRegistered | src/App.jsx:480-481 | For every index k < 8, the stage at k is followed by the stage at k + 1. |
| Process.NoteText | src/App.jsx:466 | The creation note is "Processo criado.". An advance note is the prefix "Processo avançado para ", then the stage label, then a full stop, so the label can be read back from the text. |
| Process.NoteTextInjective | src/App.jsx:383 | Distinct notes are stored as distinct texts, so modelling the note as a datatype loses nothing. |
| Process.Create | src/App.jsx:369-386 | The new record satisfies the workflow invariant and starts at `iniciacao` with status `em_andamento`. Creator and assignee are the creator's id, and the document list is present and empty. The history is the single creation entry. Title, number and deadline are as entered, the id is the one the store assigns, and both the creation and the update time are the server timestamp. |
| Process.Advance | src/App.jsx:459-478 | An absent or empty target does nothing, and a target that is not a registry id writes nothing. Otherwise the written record is at the target stage. Its history is the old one, a missing one read as empty, plus one entry at the end for the target, by the actor, with the note naming the target's label. The assignee is the given id when truthy and the old one otherwise. The update time is the server's, and every other field is kept. |
| Process.Attach | src/App.jsx:437-450 | Without a file nothing changes. Otherwise the document list, a missing one read as empty, gains one entry at the end, named after the file, with the URL, time and uploader. No other field changes. |
| Workflow.Target | src/App.jsx:534-537 | The button exists exactly when a next stage does. The id it passes is truthy and reads back as that stage. |
| Workflow.Click | src/App.jsx:537 | At `finalizado` a press changes nothing. Elsewhere the record moves to the computed next stage and gains exactly one history entry at the end, and the assignee is kept. The history order is that of the press over the history as stored (see "## Left out"). |
| Workflow.AdvancePreservesValid | src/App.jsx:469-473 | Every written advance satisfies the workflow invariant, and no outcome of an advance breaks it. |
| Workflow.AttachPreservesValid | src/App.jsx:448-450 | Attaching keeps the history and keeps the workflow invariant, in both directions. |
| Workflow.HistoryAppendOnly | src/App.jsx:473 | After any advance request, the old history is a prefix of the new one. |
| Workflow.ClickSteps | src/App.jsx:480-481 | On a valid record, a press at `finalizado` changes nothing. Elsewhere it moves exactly one position forward, adds exactly one history entry and keeps the assignee. The result stays valid. |
| Workflow.ClickFromUnknownStage | src/App.jsx:480-481 | A press on a record with an unregistered stage moves it to `iniciacao` and makes it valid. |
| Workflow.PressesKeepHistory | src/App.jsx:473 | Any run of presses, by any users at any instants, keeps the old history as a prefix. |
| Workflow.FirstPress | src/App.jsx:537 | The first press of a run changes nothing at `finalizado`. Elsewhere it moves one position forward, appends one entry and keeps the assignee. The rest of the run continues from there. The history order is that of the press over the history as stored (see "## Left out"). |
| Workflow.ProgressStep | src/App.jsx:480-481 | One press followed by m presses is m + 1 presses. |
| Workflow.PressesProgress | src/App.jsx:473-481 | Any run of n presses, each by its own user at its own instants, from a valid record at position i: with k = min(n, 8 - i), the result is valid, at position i + k, with the same assignee, and its history is the old one followed by k entries for positions i + 1, ..., i + k. The history order is that of the press over the history as stored (see "## Left out"). |
| Workflow.PressesReach | src/App.jsx:480-481 | From a valid record at position i, any n presses reach position min(i + n, 8), keep the record valid and keep the assignee. |
| Workflow.PressesHistoryLength | src/App.jsx:473 | Any n presses from position i add exactly min(n, 8 - i) history entries. |
| Workflow.PressesHistoryStages | src/App.jsx:473 | From a valid record at position i, the entries any n presses add are, in order, for positions i + 1, i + 2, ... up to min(i + n, 8). The history order is that of the press over the history as stored (see "## Left out"). |
| Workflow.FromFirstFinishes | src/App.jsx:480-481 | A valid record at `iniciacao` with one history entry is at `finalizado` after any eight or more presses, with nine entries, entry j for the stage at position j. The history order is that of the press over the history as stored (see "## Left out"). |
| Workflow.CreatedProcessFinishes | src/App.jsx:369-386 | After any eight or more presses, by any users at any instants, a new process is at `finalizado` with nine history entries, and entry j is for the stage at position j. The history order is that of the press over the history as stored (see "## Left out"). |
| Workflow.ClickFromFirst | src/App.jsx:466 | A press at `iniciacao` moves to `especificacao`. It adds one entry whose note names "Especificação Técnica". |
| Dashboard.Filter | src/App.jsx:277 | The result is no longer than the input. Every kept element is from the input and accepted, and every accepted input element is kept. |
| Dashboard.FilterAppend | src/App.jsx:277 | Filtering a concatenation is concatenating the filtered parts. |
| Dashboard.Visible | src/App.jsx:260-264 | A director sees the whole list. Any other role sees exactly the records assigned to the user's id. |
| Dashboard.CountDelayed | src/App.jsx:277 | The one-by-one count of late records never exceeds the list length. |
| Dashboard.ComputeKpis | src/App.jsx:275-280 | The total is the list length and equals on-time plus delayed. The delayed count lies in 0..total and equals the one-by-one count of records with a final deadline before now. |
| Dashboard.FilterCounts | src/App.jsx:277 | The filtered length and the one-by-one count of late records agree. |
| Dashboard.NoneDelayed | src/App.jsx:277 | The delayed count is zero exactly when no record's deadline has passed. |
| Dashboard.AllDelayed | src/App.jsx:277 | The delayed count is the list length exactly when every record's deadline has passed. |
| Dashboard.DelayedAdds | src/App.jsx:277 | The delayed count of a concatenation is the sum of the parts' counts. |
| Dashboard.CountMonotone | src/App.jsx:277 | A later instant never counts fewer late records. |
| Dashboard.DelayedGrowsWithTime | src/App.jsx:275-280 | On the same list, a later instant gives a delayed counter at least as large and an on-time counter at least as small. |
| Dashboard.VisibleCounts | src/App.jsx:260-280 | A director's counters are those of the whole list. Anyone's total is at most the whole list's length. |
| Access.NavItems | src/App.jsx:195-198 | There are two entries for the director role and one otherwise. The first is the dashboard, every entry is the dashboard or the security view, and the security entry is present exactly for the director role. |
| DetailView.Insert | src/App.jsx:520 | Inserting one entry gives one more entry, with the same entries plus the new one. |
| DetailView.InsertNewestFirst | src/App.jsx:520 | Inserting into a newest-first history keeps it newest-first. |
| DetailView.SortNewestFirst | src/App.jsx:520 | The sorted history holds exactly the same entries, newest first. |
| DetailView.AsRendered | src/App.jsx:520 | The rendered record differs from the stored one only in its history, which holds the same entries, newest first. |
| DetailView.PressAsWritten | src/App.jsx:473 | At `finalizado` nothing changes. Elsewhere the record moves to the next stage, and its history is the sorted history followed by one entry. |
| DetailView.PressAsWrittenHistory | src/App.jsx:462-473 | On a valid record short of `finalizado`, the written history is the stored one sorted newest-first, followed by the entry for the next stage with its label note. |
| DetailView.PressAsWrittenKeepsInvariant | src/App.jsx:469-473 | The sort does not break the workflow invariant: a press as written leaves a valid record that keeps every earlier entry. |
| DetailView.ExampleAdvancedOnce | src/App.jsx:369-386 | A process created at instant 1 and pressed once at instant 2 is valid, at `especificacao`, with two entries stamped 1 and 2. |
| DetailView.SortedPressBreaksPrefix | src/App.jsx:520 | On such a record a press as written stores [first advance, creation, second advance], so the old history is not a prefix of the new one. The workflow model's press keeps it a prefix. |
| Access.Panels | src/App.jsx:182-183 | The dashboard panel renders exactly on the dashboard view. The security panel renders exactly on the security view for a director. At most one panel renders. |
| Access.KpisGoWithSecurityEntry | src/App.jsx:304 | The counters are shown exactly for the director role, which is exactly when the security entry is offered. |
| Access.SecurityPanelGated | src/App.jsx:183 | The security panel renders only on a reachable view and only for a director, exactly when the security entry is offered and selected. |
| Access.DemotedOnSecurityView | src/App.jsx:176-183 | A non-director left on the security view sees no panel, and the view is not reachable for them. |
| Access.ReachableRendersOne | src/App.jsx:176-183 | Every view a user can reach renders exactly one panel. |

## Left out

- Store and storage I/O. Document store reads, writes and subscriptions, blob uploads and download URLs are not modelled. Each transition gives the record the application asks the store to write. The URL, the store-assigned id of a new record and the records a subscription delivers are parameters.
- Write failures. The catch blocks that log a failed write leave the stored record unchanged; the model gives the record that would be written.
- The list a query returns is taken in the order the store delivers it, which is the order of the input sequence.
- Clocks. `new Date()` and the server timestamp are the two integers of a `Clock` supplied by the caller. The counters are memoized on the process list, so the parameter `now` is the instant at which the list was last delivered, not the current time.
- Date parsing. The final deadline is an `Option<int>`. `None` stands for a deadline that is missing, empty or not a date; such a deadline never compares as earlier than now.
- Process.Create: the stored deadline is the form's date string, but the model records the instant it denotes. The check that fields are non-empty is the form's HTML `required` attribute, not code, and is not modelled.
- Process.Advance: the note is the datatype `Note`, and `NoteText` gives the stored text. The contracts state the note's stage label, not the characters of the text.
- Stages.Lookup: keys that a JavaScript object inherits from its prototype (such as `toString`) are not counted as registry hits. The registry answers only its nine ids.
- Process.Advance: a target that is a key inherited from JavaScript's object prototype (such as `toString`) gives an undefined label and is written in the source. The model rejects it like any other unregistered id. The button never passes such a key.
- Workflow.PressesKeepHistory: the prefix property holds for the model's press, which appends to the history as stored. The code writes the old history sorted newest-first, then the new entry, so its stored history keeps every entry but not their order. The last-entry invariant holds either way: `DetailView.PressAsWrittenKeepsInvariant` proves it for the code as written. See "## Findings".
- Workflow.HistoryAppendOnly: the same holds for a single advance. The prefix property is about the history as stored, whereas the code spreads the history the detail view has sorted. `Workflow.AdvancePreservesValid`'s first clause does not depend on history order.
- Workflow.Click: its `AppendsOne` clause (the old history stays a prefix) holds for a press over the history as stored. In the code as written the press spreads the history the detail view has sorted newest-first. Position, validity, length and assignee do not depend on that order.
- Workflow.FirstPress: its `AppendsOne` clause is the prefix of the press over the history as stored, not of the code as written, for the same reason as `Workflow.Click`.
- Workflow.PressesProgress: "the old history followed by one entry per position passed" holds for presses over the history as stored. As written, from the second press on, the earlier entries are re-sorted newest-first. The position, validity, assignee and entry count clauses hold either way.
- Workflow.PressesHistoryStages: the entries are in stage order only for presses over the history as stored. As written, each press re-sorts the earlier entries newest-first.
- Workflow.FromFirstFinishes: "entry j is for the stage at position j" holds for presses over the history as stored. As written, eight presses from creation store the seven earlier advances newest-first, then the creation entry, then the last advance. The terminal stage and the nine entries hold either way.
- Workflow.CreatedProcessFinishes: the same as `Workflow.FromFirstFinishes`. The terminal stage and the count of nine hold for the code as written, but the entry order holds only for the history as stored.
- DetailView.SortNewestFirst: the sort is stable in the source. The model states only that it keeps the same entries in newest-first order, not how it orders entries with equal timestamps.
- Stale records and concurrent writers. The detail view keeps the record it was opened with, so a second press in the same dialog re-sends the same stage from the old history. Writes by two users race, and the last write wins. `Workflow.Presses` models each press on the record as last stored, with its history in stored order.
- Process.Attach: the upload handler (src/App.jsx:449) spreads the documents of the record the dialog was opened with. A second upload in the same dialog therefore drops the first upload's entry. `Attach` and its "one more document" are about the record as stored.
- Login and invite error messages, role updates (src/App.jsx:564-571), user provisioning and all rendering and styling are outside the workflow core and not modelled.

## Findings

| source | as written | input that shows it | evidently intended | confidence | as-written member | corrected member |
|---|---|---|---|---|---|---|
| src/App.jsx:520 | Sorting the displayed history with `sort` reorders in place the same array that the advance at 473 spreads. The stored history becomes the old entries newest-first, followed by the new entry. | A process created at instant 1 and advanced at instant 2 stores [creation, first advance]. Advancing again at instant 3 stores [first advance, creation, second advance]. | The display sorts a copy, and each advance appends to the history in stored, chronological order. | medium, not executed | DetailView.SortedPressBreaksPrefix | Workflow.PressesKeepHistory |
