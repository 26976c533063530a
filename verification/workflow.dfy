/**
 * The press of the advance button as intended: the only advance ever
 * requested is to the computed next stage, with no reassignment, and the
 * written history is the one stored, with the display sort kept off it.
 * These lemmas show that the workflow invariant holds from creation on and
 * that the stage moves one step at a time until the terminal stage.
 */
module Workflow {
  import opened Wrappers
  import opened Stages
  import opened Process

  /** The id the advance button passes: the next stage's id, absent at the end. */
  function Target(next: Option<Stage>): (t: Option<string>)
    ensures t.None? <==> next.None?
    ensures next.Some? ==> Truthy(t) && Parse(t.value) == Known(next.value)
  {
    match next
    case None => None
    case Some(s) => ParseId(s); Some(Id(s))
  }

  /**
   * One press of the advance button: request the next stage, keep the
   * assignee. At the terminal stage there is no button and nothing changes.
   */
  function Click(p: ProcessRecord, actor: User, clock: Clock): (r: ProcessRecord)
    ensures p.currentStage == Known(Terminal) ==> r == p
    ensures p.currentStage != Known(Terminal) ==>
              && NextStage(p.currentStage).Some?
              && r.currentStage == Known(NextStage(p.currentStage).value)
              && AppendsOne(History(p), History(r))
              && r.assignedTo == p.assignedTo
  {
    After(p, Advance(p, Target(NextStage(p.currentStage)), None, actor, clock))
  }

  /** One press of the advance button: who pressed it, and when. */
  datatype Press = Press(actor: User, clock: Clock)

  /** A run of presses, each by its own user at its own instants, on the record as last stored. */
  function Presses(p: ProcessRecord, ps: seq<Press>): ProcessRecord
    decreases |ps|
  {
    if |ps| == 0 then p else Presses(Click(p, ps[0].actor, ps[0].clock), ps[1..])
  }

  /** Any written advance yields a valid record, and no outcome breaks validity. */
  lemma AdvancePreservesValid(p: ProcessRecord, newStage: Option<string>, assignedToId: Option<string>,
                              actor: User, clock: Clock)
    ensures Advance(p, newStage, assignedToId, actor, clock).Written? ==>
              Valid(Advance(p, newStage, assignedToId, actor, clock).record)
    ensures Valid(p) ==> Valid(After(p, Advance(p, newStage, assignedToId, actor, clock)))
  {
  }

  /** Attaching a document never disturbs the stage or the history. */
  lemma AttachPreservesValid(p: ProcessRecord, file: Option<File>, url: string, uploader: User, clock: Clock)
    ensures Valid(p) <==> Valid(Attach(p, file, url, uploader, clock))
    ensures History(Attach(p, file, url, uploader, clock)) == History(p)
  {
  }

  /** History is append-only: every advance keeps the old history as a prefix. */
  lemma HistoryAppendOnly(p: ProcessRecord, newStage: Option<string>, assignedToId: Option<string>,
                          actor: User, clock: Clock)
    ensures History(p) <= History(After(p, Advance(p, newStage, assignedToId, actor, clock)))
  {
    var o := Advance(p, newStage, assignedToId, actor, clock);
    if o.Written? {
      assert History(o.record)[..|History(p)|] == History(p);
    }
  }

  /**
   * On a valid record short of the terminal stage, one click moves exactly
   * one position forward, appends exactly one history entry and keeps the
   * assignee; at the terminal stage it changes nothing.
   */
  lemma ClickSteps(p: ProcessRecord, actor: User, clock: Clock)
    requires Valid(p)
    ensures p.currentStage == Known(Terminal) ==> Click(p, actor, clock) == p
    ensures p.currentStage != Known(Terminal) ==>
      && Click(p, actor, clock).currentStage.Known?
      && Position(Click(p, actor, clock).currentStage.stage) == Position(p.currentStage.stage) + 1
      && |History(Click(p, actor, clock))| == |History(p)| + 1
      && Click(p, actor, clock).assignedTo == p.assignedTo
    ensures Valid(Click(p, actor, clock))
  {
    AdvancePreservesValid(p, Target(NextStage(p.currentStage)), None, actor, clock);
  }

  /** A record whose stored stage the registry does not know is sent to the first stage. */
  lemma ClickFromUnknownStage(p: ProcessRecord, actor: User, clock: Clock)
    requires p.currentStage.Unknown?
    ensures Click(p, actor, clock).currentStage == Known(First)
    ensures Valid(Click(p, actor, clock))
  {
    AdvancePreservesValid(p, Target(NextStage(p.currentStage)), None, actor, clock);
  }

  function Min(a: int, b: int): int {
    if a <= b then a else b
  }

  /** A run of presses is its first press followed by the rest. */
  lemma PressesUnfold(p: ProcessRecord, ps: seq<Press>)
    requires |ps| > 0
    ensures Presses(p, ps) == Presses(Click(p, ps[0].actor, ps[0].clock), ps[1..])
  {
  }

  /** Pressing never rewrites history: the old history stays a prefix. */
  lemma {:induction false} PressesKeepHistory(p: ProcessRecord, ps: seq<Press>)
    ensures History(p) <= History(Presses(p, ps))
    decreases |ps|
  {
    if |ps| > 0 {
      PressesUnfold(p, ps);
      HistoryAppendOnly(p, Target(NextStage(p.currentStage)), None, ps[0].actor, ps[0].clock);
      PressesKeepHistory(Click(p, ps[0].actor, ps[0].clock), ps[1..]);
    }
  }

  /**
   * The `count` entries of `h` from index `from` on are, in order, for the
   * stages at positions `pos`, `pos + 1`, ...
   */
  predicate StepsFrom(h: seq<HistoryEntry>, from: nat, pos: nat, count: nat) {
    && from + count <= |h|
    && forall k :: from <= k < from + count ==>
         h[k].stage.Known? && Position(h[k].stage.stage) == pos + (k - from)
  }

  /**
   * One press's entry followed by the entries of the later presses: if `hq`
   * extends `hp` by an entry for position `pos` and `hr` extends `hq` with
   * entries for the `count` positions after it, then from `|hp|` on `hr`
   * holds entries for `count + 1` positions from `pos`.
   */
  lemma StepsCons(hp: seq<HistoryEntry>, hq: seq<HistoryEntry>, hr: seq<HistoryEntry>, pos: nat, count: nat)
    requires |hq| == |hp| + 1 && hq <= hr
    requires hq[|hp|].stage.Known? && Position(hq[|hp|].stage.stage) == pos
    requires StepsFrom(hr, |hq|, pos + 1, count)
    ensures StepsFrom(hr, |hp|, pos, count + 1)
  {
    assert hr[|hp|] == hq[|hp|];
  }

  /**
   * `r` is where n presses leave the valid record `p` at position i: with
   * k = min(n, 8 - i), it is valid, at position i + k, with the same
   * assignee, and its history is the old one followed by k entries for the
   * positions i + 1, ..., i + k.
   */
  predicate Progressed(p: ProcessRecord, r: ProcessRecord, n: nat)
    requires Valid(p)
  {
    var i := Position(p.currentStage.stage);
    var k := Min(n, |StageOrder| - 1 - i);
    && Valid(r)
    && Position(r.currentStage.stage) == i + k
    && r.assignedTo == p.assignedTo
    && |History(r)| == |History(p)| + k
    && History(p) <= History(r)
    && StepsFrom(History(r), |History(p)|, i + 1, k)
  }

  /**
   * The induction step away from the terminal stage: a press from `p` to
   * the next position `q`, followed by m presses from `q` to `r`, is
   * m + 1 presses from `p` to `r`.
   */
  lemma ProgressCons(p: ProcessRecord, q: ProcessRecord, r: ProcessRecord, m: nat)
    requires Valid(p) && p.currentStage != Known(Terminal)
    requires Valid(q) && Position(q.currentStage.stage) == Position(p.currentStage.stage) + 1
    requires AppendsOne(History(p), History(q)) && q.assignedTo == p.assignedTo
    requires Progressed(q, r, m)
    ensures Progressed(p, r, m + 1)
  {
    var i := Position(p.currentStage.stage);
    StepsCons(History(p), History(q), History(r), i + 1, Min(m, |StageOrder| - 2 - i));
  }

  /** At the terminal stage a further press adds nothing. */
  lemma ProgressAtTerminal(p: ProcessRecord, r: ProcessRecord, m: nat)
    requires Valid(p) && p.currentStage == Known(Terminal)
    requires Progressed(p, r, m)
    ensures Progressed(p, r, m + 1)
  {
    assert Position(Terminal) == |StageOrder| - 1;
  }

  /** No presses leave the record where it is. */
  lemma ProgressedNone(p: ProcessRecord)
    requires Valid(p)
    ensures Progressed(p, p, 0)
  {
  }

  /**
   * The induction step: `q` is what one press makes of `p` (the same
   * record at the terminal stage, the next position with one more entry
   * elsewhere), and m further presses take `q` to `r`.
   */
  lemma ProgressStep(p: ProcessRecord, q: ProcessRecord, r: ProcessRecord, m: nat)
    requires Valid(p) && Valid(q)
    requires p.currentStage == Known(Terminal) ==> q == p
    requires p.currentStage != Known(Terminal) ==>
               && Position(q.currentStage.stage) == Position(p.currentStage.stage) + 1
               && AppendsOne(History(p), History(q))
               && q.assignedTo == p.assignedTo
    requires Progressed(q, r, m)
    ensures Progressed(p, r, m + 1)
  {
    if p.currentStage == Known(Terminal) {
      ProgressAtTerminal(p, r, m);
    } else {
      ProgressCons(p, q, r, m);
    }
  }

  /**
   * The record `q` one press leaves, in the terms `ProgressStep` asks for,
   * with the rest of the run still to come.
   */
  lemma FirstPress(p: ProcessRecord, ps: seq<Press>) returns (q: ProcessRecord)
    requires Valid(p) && |ps| > 0
    ensures Valid(q)
    ensures p.currentStage == Known(Terminal) ==> q == p
    ensures p.currentStage != Known(Terminal) ==>
              && Position(q.currentStage.stage) == Position(p.currentStage.stage) + 1
              && AppendsOne(History(p), History(q))
              && q.assignedTo == p.assignedTo
    ensures Presses(p, ps) == Presses(q, ps[1..])
  {
    q := Click(p, ps[0].actor, ps[0].clock);
    PressesUnfold(p, ps);
    ClickSteps(p, ps[0].actor, ps[0].clock);
  }

  /**
   * Any run of presses, by any users at any instants, moves a valid record
   * one position per press until the terminal stage, adding one history
   * entry per position passed.
   */
  lemma {:induction false} PressesProgress(p: ProcessRecord, ps: seq<Press>)
    requires Valid(p)
    ensures Progressed(p, Presses(p, ps), |ps|)
    decreases |ps|
  {
    if |ps| == 0 {
      assert Presses(p, ps) == p;
      ProgressedNone(p);
    } else {
      var q := FirstPress(p, ps);
      var rest := ps[1..];
      var m: nat := |rest|;
      PressesProgress(q, rest);
      ProgressStep(p, q, Presses(q, rest), m);
    }
  }

  /**
   * From a valid record at position i, n presses reach position
   * min(i + n, 8): the workflow never skips, never goes back, stops at the
   * terminal stage and keeps the assignee.
   */
  lemma PressesReach(p: ProcessRecord, ps: seq<Press>)
    requires Valid(p)
    ensures Valid(Presses(p, ps))
    ensures Position(Presses(p, ps).currentStage.stage) == Min(Position(p.currentStage.stage) + |ps|, |StageOrder| - 1)
    ensures Presses(p, ps).assignedTo == p.assignedTo
  {
    PressesProgress(p, ps);
  }

  /** n presses from a valid record at position i add exactly min(n, 8 - i) history entries. */
  lemma PressesHistoryLength(p: ProcessRecord, ps: seq<Press>)
    requires Valid(p)
    ensures |History(Presses(p, ps))| == |History(p)| + Min(|ps|, |StageOrder| - 1 - Position(p.currentStage.stage))
  {
    PressesProgress(p, ps);
  }

  /**
   * The entries n presses add to a valid record at position i are, in
   * order, for the positions i + 1, i + 2, ..., up to the terminal stage.
   */
  lemma PressesHistoryStages(p: ProcessRecord, ps: seq<Press>)
    requires Valid(p)
    ensures StepsFrom(History(Presses(p, ps)), |History(p)|, Position(p.currentStage.stage) + 1,
                      Min(|ps|, |StageOrder| - 1 - Position(p.currentStage.stage)))
  {
    PressesProgress(p, ps);
  }

  /**
   * A history whose entries from the start are for positions 0, 1, ...,
   * 8 holds, at index j, the entry for the j-th stage of the order.
   */
  lemma StepsFromStart(h: seq<HistoryEntry>)
    requires StepsFrom(h, 0, 0, |StageOrder|)
    ensures forall j :: 0 <= j < |StageOrder| ==> h[j].stage == Known(StageOrder[j])
  {
    forall j | 0 <= j < |StageOrder|
      ensures h[j].stage == Known(StageOrder[j])
    {
      assert Position(h[j].stage.stage) == j;
    }
  }

  /**
   * Eight or more presses from a valid record at the first stage with a
   * single history entry end at the terminal stage, with one entry per
   * stage in order.
   */
  lemma ProgressedFromFirst(p: ProcessRecord, r: ProcessRecord, n: nat)
    requires Valid(p) && Position(p.currentStage.stage) == 0 && |History(p)| == 1
    requires n >= |StageOrder| - 1 && Progressed(p, r, n)
    ensures r.currentStage == Known(Terminal)
    ensures |History(r)| == |StageOrder|
    ensures StepsFrom(History(r), 0, 0, |StageOrder|)
  {
    StepsCons([], History(p), History(r), 0, |StageOrder| - 1);
  }

  /**
   * A valid record at the first stage holding only its entry for that
   * stage is finished after eight presses: its history then holds nine
   * entries, entry j for the stage at position j.
   */
  lemma FromFirstFinishes(p: ProcessRecord, ps: seq<Press>)
    requires Valid(p) && p.currentStage == Known(First) && |History(p)| == 1
    requires |ps| >= |StageOrder| - 1
    ensures Presses(p, ps).currentStage == Known(Terminal)
    ensures |History(Presses(p, ps))| == |StageOrder|
    ensures forall j :: 0 <= j < |StageOrder| ==> History(Presses(p, ps))[j].stage == Known(StageOrder[j])
  {
    PressesProgress(p, ps);
    ProgressedFromFirst(p, Presses(p, ps), |ps|);
    StepsFromStart(History(Presses(p, ps)));
  }

  /**
   * A newly created process is finished after eight presses, by whoever at
   * whatever instants, having passed through every stage once: its history
   * then holds nine entries, entry j for the stage at position j, and
   * further presses change nothing.
   */
  lemma CreatedProcessFinishes(id: string, title: string, processNumber: string, deadline: Option<int>,
                               creator: User, clock: Clock, ps: seq<Press>)
    requires |ps| >= |StageOrder| - 1
    ensures Presses(Create(id, title, processNumber, deadline, creator, clock), ps).currentStage == Known(Terminal)
    ensures |History(Presses(Create(id, title, processNumber, deadline, creator, clock), ps))| == |StageOrder|
    ensures forall j :: 0 <= j < |StageOrder| ==>
              History(Presses(Create(id, title, processNumber, deadline, creator, clock), ps))[j].stage
                == Known(StageOrder[j])
  {
    FromFirstFinishes(Create(id, title, processNumber, deadline, creator, clock), ps);
  }

  /**
   * Advancing a process from its first stage: it moves to "especificacao"
   * and the new history entry's note names "Especificação Técnica".
   */
  lemma ClickFromFirst(p: ProcessRecord, actor: User, clock: Clock)
    requires Valid(p) && p.currentStage == Known(First)
    ensures Click(p, actor, clock).currentStage == Known(Especificacao)
    ensures |History(Click(p, actor, clock))| == |History(p)| + 1
    ensures Last(History(Click(p, actor, clock))).notes == AdvancedTo("Especificação Técnica")
  {
    ParseId(Especificacao);
  }
}
