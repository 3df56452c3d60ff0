/** What the counter's figures are: the last summaries, and the results counted after them. */
module TapCounts {

  import opened RawLog
  import opened Results
  import opened TapCounter
  import opened Text

  type Classifier = seq<Byte> -> LineClass

  /** Line k sums up this field. */
  predicate SumsUp(classify: Classifier, lines: seq<RawLine>, k: nat, field: SummaryField)
    requires k < |lines|
  {
    var line := classify(lines[k].bytes);
    line.Summary? && line.field == field
  }

  /** Line k is a node `tests` line. */
  predicate NodeTests(classify: Classifier, lines: seq<RawLine>, k: nat)
    requires k < |lines|
  {
    SumsUp(classify, lines, k, Tests) && classify(lines[k].bytes).node
  }

  predicate Times(classify: Classifier, lines: seq<RawLine>, k: nat)
    requires k < |lines|
  {
    classify(lines[k].bytes).Duration?
  }

  /** Line k is a result that counts, failed or not: a TAP line, or a node line before the first node
      `tests` line. */
  predicate CountsAs(classify: Classifier, lines: seq<RawLine>, k: nat, failed: bool)
    requires k < |lines|
  {
    match classify(lines[k].bytes)
    case TapPass(_) => !failed
    case TapFailure(_, _) => failed
    case NodeResult(nodeFailed, _) =>
      nodeFailed == failed
      && forall i :: 0 <= i < k ==> !NodeTests(classify, lines, i)
    case _ => false
  }

  /** The lines from the i-th on that count as failed, or as passed. */
  function Counting(classify: Classifier, lines: seq<RawLine>, from: int, failed: bool): set<int> {
    set k | 0 <= k < |lines| && from <= k && CountsAs(classify, lines, k, failed)
  }

  /** The last line that sums up a field, or -1. */
  ghost predicate LastSum(classify: Classifier, lines: seq<RawLine>, field: SummaryField, i: int) {
    && -1 <= i < |lines| && (i >= 0 ==> SumsUp(classify, lines, i, field))
    && forall k :: i < k < |lines| && k >= 0 ==> !SumsUp(classify, lines, k, field)
  }

  ghost predicate LastTime(classify: Classifier, lines: seq<RawLine>, i: int) {
    && -1 <= i < |lines| && (i >= 0 ==> Times(classify, lines, i))
    && forall k :: i < k < |lines| && k >= 0 ==> !Times(classify, lines, k)
  }

  /** What the i-th line says, or nothing. */
  function Said(classify: Classifier, lines: seq<RawLine>, i: int): Option<nat>
    requires i < |lines|
  {
    if i < 0 then None
    else
      match classify(lines[i].bytes)
      case Summary(_, _, value) => Some(value)
      case Duration(value) => Some(value)
      case _ => None
  }

  function OrZero(n: Option<nat>): nat {
    match n
    case Some(value) => value
    case None => 0
  }

  /** For each figure, the line that last said it. */
  datatype Lasts = Lasts(tests: int, pass: int, fail: int, cancelled: int, skipped: int, todo: int, duration: int)

  ghost predicate AreLast(classify: Classifier, lines: seq<RawLine>, l: Lasts) {
    && LastSum(classify, lines, Tests, l.tests) && LastSum(classify, lines, Pass, l.pass)
    && LastSum(classify, lines, Fail, l.fail) && LastSum(classify, lines, Cancelled, l.cancelled)
    && LastSum(classify, lines, Skipped, l.skipped) && LastSum(classify, lines, Todo, l.todo)
    && LastTime(classify, lines, l.duration)
  }

  /** The figures those lines and the results after them amount to. */
  function Figures(classify: Classifier, lines: seq<RawLine>, l: Lasts): Progress
    requires l.tests < |lines| && l.pass < |lines| && l.fail < |lines| && l.cancelled < |lines|
    requires l.skipped < |lines| && l.todo < |lines| && l.duration < |lines|
  {
    Progress(
      completed := OrZero(Said(classify, lines, l.tests)) + |Counting(classify, lines, l.tests + 1, false)|
                   + |Counting(classify, lines, l.tests + 1, true)|,
      pass := OrZero(Said(classify, lines, l.pass)) + |Counting(classify, lines, l.pass + 1, false)|,
      fail := OrZero(Said(classify, lines, l.fail)) + |Counting(classify, lines, l.fail + 1, true)|,
      total := Said(classify, lines, l.tests),
      cancelled := OrZero(Said(classify, lines, l.cancelled)),
      skipped := OrZero(Said(classify, lines, l.skipped)),
      todo := OrZero(Said(classify, lines, l.todo)),
      durationMs := Said(classify, lines, l.duration))
  }

  // ----- one more line

  lemma CountingOneMore(classify: Classifier, lines: seq<RawLine>, from: int, failed: bool)
    requires lines != [] && from < |lines|
    ensures var n := |lines| - 1;
            Counting(classify, lines, from, failed)
            == Counting(classify, lines[..n], from, failed) + (if CountsAs(classify, lines, n, failed) then {n} else {})
    ensures |Counting(classify, lines, from, failed)|
            == |Counting(classify, lines[..|lines| - 1], from, failed)|
               + if CountsAs(classify, lines, |lines| - 1, failed) then 1 else 0
  {
    var n := |lines| - 1;
    forall k | 0 <= k < n ensures CountsAs(classify, lines, k, failed) <==> CountsAs(classify, lines[..n], k, failed) {
      SameCount(classify, lines, k, failed);
    }
    hide CountsAs;
    assert n !in Counting(classify, lines[..n], from, failed);
  }

  lemma SameCount(classify: Classifier, lines: seq<RawLine>, k: nat, failed: bool)
    requires k < |lines| - 1
    ensures CountsAs(classify, lines, k, failed) <==> CountsAs(classify, lines[..|lines| - 1], k, failed)
  {
    var n := |lines| - 1;
    forall i | 0 <= i <= k ensures lines[i] == lines[..n][i] {
    }
    assert forall i :: 0 <= i < k ==>
      (NodeTests(classify, lines, i) <==> NodeTests(classify, lines[..n], i));
  }

  lemma NothingAfter(classify: Classifier, lines: seq<RawLine>, from: int, failed: bool)
    requires from >= |lines|
    ensures Counting(classify, lines, from, failed) == {}
  {
  }

  /** The lines that last said something, before the last line. */
  function Before(classify: Classifier, lines: seq<RawLine>): (l: Lasts)
    ensures AreLast(classify, lines, l)
  {
    if lines == [] then Lasts(-1, -1, -1, -1, -1, -1, -1)
    else
      var n := |lines| - 1;
      var front := Before(classify, lines[..n]);
      LastsStay(classify, lines, front);
      match classify(lines[n].bytes)
      case Summary(_, field, _) =>
        (match field
         case Tests => front.(tests := n)
         case Pass => front.(pass := n)
         case Fail => front.(fail := n)
         case Cancelled => front.(cancelled := n)
         case Skipped => front.(skipped := n)
         case Todo => front.(todo := n))
      case Duration(_) => front.(duration := n)
      case _ => front
  }

  lemma LastsStay(classify: Classifier, lines: seq<RawLine>, l: Lasts)
    requires lines != [] && AreLast(classify, lines[..|lines| - 1], l)
    ensures var n := |lines| - 1;
            && (forall field, i :: LastSum(classify, lines[..n], field, i) && !SumsUp(classify, lines, n, field) ==>
                  LastSum(classify, lines, field, i))
            && (forall field :: SumsUp(classify, lines, n, field) ==> LastSum(classify, lines, field, n))
            && (forall i :: LastTime(classify, lines[..n], i) && !Times(classify, lines, n) ==>
                  LastTime(classify, lines, i))
            && (Times(classify, lines, n) ==> LastTime(classify, lines, n))
  {
    var n := |lines| - 1;
    forall field, i | LastSum(classify, lines[..n], field, i) && !SumsUp(classify, lines, n, field)
      ensures LastSum(classify, lines, field, i)
    {
      forall k | i < k < |lines| && k >= 0 ensures !SumsUp(classify, lines, k, field) {
        assert k < n ==> !SumsUp(classify, lines[..n], k, field);
      }
      assert i >= 0 ==> SumsUp(classify, lines[..n], i, field);
    }
    forall i | LastTime(classify, lines[..n], i) && !Times(classify, lines, n) ensures LastTime(classify, lines, i) {
      forall k | i < k < |lines| && k >= 0 ensures !Times(classify, lines, k) {
        assert k < n ==> !Times(classify, lines[..n], k);
      }
      assert i >= 0 ==> Times(classify, lines[..n], i);
    }
  }

  lemma SaidBefore(classify: Classifier, lines: seq<RawLine>, i: int)
    requires lines != [] && i < |lines| - 1
    ensures Said(classify, lines, i) == Said(classify, lines[..|lines| - 1], i)
  {
  }

  lemma OnlyLast(classify: Classifier, lines: seq<RawLine>, l: Lasts, m: Lasts)
    requires AreLast(classify, lines, l) && AreLast(classify, lines, m)
    ensures l == m
  {
    hide SumsUp, Times;
    OnlyLastSum(classify, lines, Tests, l.tests, m.tests);
    OnlyLastSum(classify, lines, Pass, l.pass, m.pass);
    OnlyLastSum(classify, lines, Fail, l.fail, m.fail);
    OnlyLastSum(classify, lines, Cancelled, l.cancelled, m.cancelled);
    OnlyLastSum(classify, lines, Skipped, l.skipped, m.skipped);
    OnlyLastSum(classify, lines, Todo, l.todo, m.todo);
  }

  lemma OnlyLastSum(classify: Classifier, lines: seq<RawLine>, field: SummaryField, i: int, j: int)
    requires LastSum(classify, lines, field, i) && LastSum(classify, lines, field, j)
    ensures i == j
  {
    hide SumsUp;
  }

  /** The counter's state is the figures, and whether a node `tests` line has been seen. */
  lemma {:induction false} TallyIs(classify: Classifier, lines: seq<RawLine>)
    ensures var t := ConsumedAll(EMPTY_TALLY, classify, lines);
            && t.progress == Figures(classify, lines, Before(classify, lines))
            && (t.nodeSummaryStarted <==>
                  exists i :: 0 <= i < |lines| && NodeTests(classify, lines, i))
  {
    hide Trim, Blank, Figures, Recorded, Before, Counted, Summed;
    if lines == [] {
      assert Figures(classify, lines, Before(classify, lines)) == NO_PROGRESS by { NothingSaid(classify); }
    } else {
      var n := |lines| - 1;
      var front := lines[..n];
      TallyIs(classify, front);
      RecordingCountsNothing(ConsumedAll(EMPTY_TALLY, classify, front), classify(lines[n].bytes), lines[n].byteOffset);
      OneMoreLine(classify, lines);
      NodeTestsSeen(classify, lines);
    }
  }

  lemma NothingSaid(classify: Classifier)
    ensures Figures(classify, [], Before(classify, [])) == NO_PROGRESS
  {
    NothingAfter(classify, [], 0, false);
    NothingAfter(classify, [], 0, true);
  }

  lemma NodeTestsSeen(classify: Classifier, lines: seq<RawLine>)
    requires lines != []
    ensures var n := |lines| - 1;
            (exists i :: 0 <= i < |lines| && NodeTests(classify, lines, i))
            <==> (exists i :: 0 <= i < n && NodeTests(classify, lines[..n], i))
                 || NodeTests(classify, lines, n)
  {
    var n := |lines| - 1;
    if i :| 0 <= i < n && NodeTests(classify, lines[..n], i) {
      assert NodeTests(classify, lines, i);
    }
    if i :| 0 <= i < n && NodeTests(classify, lines, i) {
      assert NodeTests(classify, lines[..n], i);
    }
  }

  /** What the figures are made of, one line later. */
  lemma PartsOneMore(classify: Classifier, lines: seq<RawLine>, l: Lasts)
    requires lines != [] && AreLast(classify, lines[..|lines| - 1], l)
    ensures var n := |lines| - 1;
            var front := lines[..n];
            var failed, passed := CountsAs(classify, lines, n, true), CountsAs(classify, lines, n, false);
            && |Counting(classify, lines, l.tests + 1, false)|
               == |Counting(classify, front, l.tests + 1, false)| + (if passed then 1 else 0)
            && |Counting(classify, lines, l.tests + 1, true)|
               == |Counting(classify, front, l.tests + 1, true)| + (if failed then 1 else 0)
            && |Counting(classify, lines, l.pass + 1, false)|
               == |Counting(classify, front, l.pass + 1, false)| + (if passed then 1 else 0)
            && |Counting(classify, lines, l.fail + 1, true)|
               == |Counting(classify, front, l.fail + 1, true)| + (if failed then 1 else 0)
            && Said(classify, lines, l.tests) == Said(classify, front, l.tests)
            && Said(classify, lines, l.pass) == Said(classify, front, l.pass)
            && Said(classify, lines, l.fail) == Said(classify, front, l.fail)
            && Said(classify, lines, l.cancelled) == Said(classify, front, l.cancelled)
            && Said(classify, lines, l.skipped) == Said(classify, front, l.skipped)
            && Said(classify, lines, l.todo) == Said(classify, front, l.todo)
            && Said(classify, lines, l.duration) == Said(classify, front, l.duration)
    ensures |Counting(classify, lines, |lines|, false)| == 0 && |Counting(classify, lines, |lines|, true)| == 0
  {
    hide Counting, CountsAs, Said, SumsUp, Times;
    var n := |lines| - 1;
    CountingOneMore(classify, lines, l.tests + 1, false);
    CountingOneMore(classify, lines, l.tests + 1, true);
    CountingOneMore(classify, lines, l.pass + 1, false);
    CountingOneMore(classify, lines, l.fail + 1, true);
    NothingAfter(classify, lines, n + 1, false);
    NothingAfter(classify, lines, n + 1, true);
    SaidBefore(classify, lines, l.tests);
    SaidBefore(classify, lines, l.pass);
    SaidBefore(classify, lines, l.fail);
    SaidBefore(classify, lines, l.cancelled);
    SaidBefore(classify, lines, l.skipped);
    SaidBefore(classify, lines, l.todo);
    SaidBefore(classify, lines, l.duration);
  }

  /** Which results the last line counts as, told from the state before it. */
  lemma LastCounts(classify: Classifier, lines: seq<RawLine>, started: bool)
    requires lines != []
    requires var front := lines[..|lines| - 1];
             started <==> exists i :: 0 <= i < |front| && NodeTests(classify, front, i)
    ensures var n := |lines| - 1;
            var line := classify(lines[n].bytes);
            forall failed :: CountsAs(classify, lines, n, failed) <==>
              match line
              case TapPass(_) => !failed
              case TapFailure(_, _) => failed
              case NodeResult(nodeFailed, _) => nodeFailed == failed && !started
              case _ => false
  {
    var n := |lines| - 1;
    forall i | 0 <= i < n ensures NodeTests(classify, lines, i) <==> NodeTests(classify, lines[..n], i) {
    }
  }

  lemma BeforeOneMore(classify: Classifier, lines: seq<RawLine>)
    requires lines != []
    ensures var n := |lines| - 1;
            var front := Before(classify, lines[..n]);
            Before(classify, lines)
            == match classify(lines[n].bytes)
               case Summary(_, field, _) =>
                 (match field
                  case Tests => front.(tests := n)
                  case Pass => front.(pass := n)
                  case Fail => front.(fail := n)
                  case Cancelled => front.(cancelled := n)
                  case Skipped => front.(skipped := n)
                  case Todo => front.(todo := n))
               case Duration(_) => front.(duration := n)
               case _ => front
  {
    hide AreLast;
  }

  lemma OneMoreLine(classify: Classifier, lines: seq<RawLine>)
    requires lines != []
    requires var t, front := ConsumedAll(EMPTY_TALLY, classify, lines[..|lines| - 1]), lines[..|lines| - 1];
             && t.progress == Figures(classify, front, Before(classify, front))
             && (t.nodeSummaryStarted <==>
                   exists i :: 0 <= i < |front| && NodeTests(classify, front, i))
    ensures ConsumedAll(EMPTY_TALLY, classify, lines).progress == Figures(classify, lines, Before(classify, lines))
  {
    hide Counting, CountsAs, SumsUp, NodeTests, Times, AreLast, Before, Recorded, ConsumedAll;
    var n := |lines| - 1;
    var t, l := ConsumedAll(EMPTY_TALLY, classify, lines[..n]), Before(classify, lines[..n]);
    LastCounts(classify, lines, t.nodeSummaryStarted);
    BeforeOneMore(classify, lines);
    PartsOneMore(classify, lines, l);
    ConsumedLast(classify, lines);
    RecordingCountsNothing(t, classify(lines[n].bytes), lines[n].byteOffset);
    if classify(lines[n].bytes).Summary? || classify(lines[n].bytes).Duration? {
      assert Said(classify, lines, n) == Some(classify(lines[n].bytes).value);
    }
    hide Said;
  }

  lemma RecordingCountsNothing(t: Tally, line: LineClass, byteOffset: nat)
    ensures line.NodeResult? || line.TapFailure? ==>
              && Recorded(t, line.name, byteOffset).progress == t.progress
              && Recorded(t, line.name, byteOffset).nodeSummaryStarted == t.nodeSummaryStarted
  {
    hide Trim, Blank;
  }

  lemma ConsumedLast(classify: Classifier, lines: seq<RawLine>)
    requires lines != []
    ensures var n := |lines| - 1;
            var t := ConsumedAll(EMPTY_TALLY, classify, lines[..n]);
            && ConsumedAll(EMPTY_TALLY, classify, lines) == Consumed(t, classify(lines[n].bytes), lines[n].byteOffset)
  {
    hide Consumed;
  }

  /** After any chunks of a log the figures are: cancelled, skipped, todo and duration as last summed
      up; the total likewise; and completed, passed and failed as last summed up, plus the results
      counted since. */
  lemma ProgressIs(classify: Classifier, log: seq<Byte>, l: Lasts)
    requires AreLast(classify, EndedLines(log, 0), l)
    ensures TallyOf(classify, log).progress == Figures(classify, EndedLines(log, 0), l)
  {
    var lines := EndedLines(log, 0);
    TallyIs(classify, lines);
    OnlyLast(classify, lines, l, Before(classify, lines));
  }
}
