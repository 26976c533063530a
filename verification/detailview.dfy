/**
 * The detail view's handling of the history as the code is written: the
 * history list is sorted newest-first in place while the view renders, and
 * the advance button then spreads that same, sorted array into the record
 * it writes. The workflow model elsewhere appends to the history as stored;
 * this module shows what the sort changes and what it does not.
 */
module DetailView {
  import opened Wrappers
  import opened Stages
  import opened Process
  import opened Workflow

  /** Every entry is at least as recent as the one after it. */
  predicate NewestFirst(h: seq<HistoryEntry>) {
    forall i :: 0 <= i < |h| - 1 ==> h[i].timestamp >= h[i + 1].timestamp
  }

  /**
   * Insert `x` into the newest-first list `s`, before the first entry that
   * is no more recent than `x`.
   */
  function Insert(x: HistoryEntry, s: seq<HistoryEntry>): (r: seq<HistoryEntry>)
    ensures |r| == |s| + 1
    ensures multiset(r) == multiset(s) + multiset{x}
    ensures r[0] == x || (|s| > 0 && r[0] == s[0])
  {
    if |s| == 0 || s[0].timestamp <= x.timestamp then [x] + s
    else
      assert s == [s[0]] + s[1..];
      [s[0]] + Insert(x, s[1..])
  }

  /** Inserting into a newest-first list keeps it newest-first. */
  lemma {:induction false} InsertNewestFirst(x: HistoryEntry, s: seq<HistoryEntry>)
    requires NewestFirst(s)
    ensures NewestFirst(Insert(x, s))
  {
    if |s| > 0 && s[0].timestamp > x.timestamp {
      InsertNewestFirst(x, s[1..]);
    }
  }

  /** The history sorted by timestamp, newest first, keeping every entry. */
  function SortNewestFirst(h: seq<HistoryEntry>): (r: seq<HistoryEntry>)
    ensures |r| == |h|
    ensures multiset(r) == multiset(h)
    ensures NewestFirst(r)
  {
    if |h| == 0 then []
    else
      assert h == [h[0]] + h[1..];
      InsertNewestFirst(h[0], SortNewestFirst(h[1..]));
      Insert(h[0], SortNewestFirst(h[1..]))
  }

  /**
   * The record as the detail view holds it once rendered: a present
   * history is reordered newest-first, and nothing else changes.
   */
  function AsRendered(p: ProcessRecord): (q: ProcessRecord)
    ensures q == p.(history := q.history)
    ensures q.history.Some? <==> p.history.Some?
    ensures multiset(History(q)) == multiset(History(p))
    ensures NewestFirst(History(q))
  {
    match p.history
    case None => p
    case Some(h) => p.(history := Some(SortNewestFirst(h)))
  }

  /**
   * One press of the advance button as written: the next stage is computed
   * from the record, and the written history is the rendered (sorted)
   * history followed by the new entry. Without a write the stored record
   * stays as it was.
   */
  function PressAsWritten(p: ProcessRecord, actor: User, clock: Clock): (r: ProcessRecord)
    ensures p.currentStage == Known(Terminal) ==> r == p
    ensures p.currentStage != Known(Terminal) ==>
              && r.currentStage == Known(NextStage(p.currentStage).value)
              && |History(r)| == |History(p)| + 1
              && History(r)[..|History(p)|] == History(AsRendered(p))
  {
    var q := AsRendered(p);
    After(p, Advance(q, Target(NextStage(q.currentStage)), None, actor, clock))
  }

  /**
   * What the sort does not break: a press as written still ends the
   * history with an entry for the new current stage, so the workflow
   * invariant holds, and it keeps every earlier entry, in some order.
   */
  lemma PressAsWrittenKeepsInvariant(p: ProcessRecord, actor: User, clock: Clock)
    requires Valid(p)
    ensures Valid(PressAsWritten(p, actor, clock))
    ensures multiset(History(p)) <= multiset(History(PressAsWritten(p, actor, clock)))
  {
    var q := AsRendered(p);
    var o := Advance(q, Target(NextStage(q.currentStage)), None, actor, clock);
    AdvancePreservesValid(q, Target(NextStage(q.currentStage)), None, actor, clock);
    if o.Written? {
      var h := History(o.record);
      assert h == h[..|History(q)|] + [h[|h| - 1]];
    }
  }

  /**
   * A press as written on a valid record short of the terminal stage writes
   * the stored history sorted newest-first, followed by the entry for the
   * next stage.
   */
  lemma PressAsWrittenHistory(p: ProcessRecord, actor: User, clock: Clock)
    requires Valid(p) && p.currentStage != Known(Terminal)
    ensures History(PressAsWritten(p, actor, clock))
              == SortNewestFirst(History(p))
                 + [HistoryEntry(Known(NextStage(p.currentStage).value), actor.name, clock.client,
                                 AdvancedTo(Label(NextStage(p.currentStage).value)))]
  {
    var q := AsRendered(p);
    var next := NextStage(q.currentStage);
    assert Target(next).Some? && Parse(Target(next).value) == Known(next.value);
  }

  /**
   * A process created at instant 1 and advanced once at instant 2: a valid
   * record at the second stage whose two entries are oldest-first.
   */
  lemma ExampleAdvancedOnce(u: User)
    ensures var p := Click(Create("p1", "Compra", "2024/001", None, u, Clock(1, 1)), u, Clock(2, 2));
            && Valid(p)
            && p.currentStage == Known(Especificacao)
            && |History(p)| == 2
            && History(p)[0].timestamp == 1 && History(p)[1].timestamp == 2
  {
    var p0 := Create("p1", "Compra", "2024/001", None, u, Clock(1, 1));
    ClickFromFirst(p0, u, Clock(2, 2));
    ClickSteps(p0, u, Clock(2, 2));
    var h := History(Click(p0, u, Clock(2, 2)));
    assert h[..1] == History(p0);
  }

  /**
   * What the sort does break. A valid record at the second stage holding
   * [creation, first advance], oldest first (as `ExampleAdvancedOnce`
   * produces), is pressed again: the code writes [first advance, creation,
   * second advance], so the stored history is no longer a prefix of the
   * written one, while the press of the workflow model keeps it as a prefix.
   */
  lemma SortedPressBreaksPrefix(p: ProcessRecord, actor: User, clock: Clock)
    requires Valid(p) && p.currentStage == Known(Especificacao)
    requires |History(p)| == 2 && History(p)[0].timestamp < History(p)[1].timestamp
    ensures History(PressAsWritten(p, actor, clock))
              == [History(p)[1], History(p)[0],
                  HistoryEntry(Known(AnaliseContratos), actor.name, clock.client, AdvancedTo(Label(AnaliseContratos)))]
    ensures !(History(p) <= History(PressAsWritten(p, actor, clock)))
    ensures History(p) <= History(Click(p, actor, clock))
  {
    var c := History(p)[0];
    var a1 := History(p)[1];
    assert SortNewestFirst(History(p)) == [a1, c] by {
      assert History(p)[1..] == [a1];
    }
    assert NextStage(p.currentStage) == Some(AnaliseContratos);
    PressAsWrittenHistory(p, actor, clock);
    HistoryAppendOnly(p, Target(NextStage(p.currentStage)), None, actor, clock);
  }
}
