/** The weekly plan card: the optimistic toggle of a task and the progress
    bar. The request sent alongside the toggle is the server's
    `Backend.ToggleTask`. */
module WeeklyPlan {
  import opened Common
  import opened Text
  import Backend

  /** A task as the card shows it. */
  datatype Task = Task(id: int, title: string, channel: string, completed: bool)

  /** `handleToggle`: every task with the id has `completed` flipped; the
      list keeps its length and order and nothing else changes. */
  function HandleToggle(tasks: seq<Task>, id: int): (r: seq<Task>)
    ensures |r| == |tasks|
    ensures forall i :: 0 <= i < |tasks| ==>
              r[i] == if tasks[i].id == id then tasks[i].(completed := !tasks[i].completed) else tasks[i]
    decreases |tasks|
  {
    if |tasks| == 0 then []
    else
      var t := tasks[0];
      [if t.id == id then t.(completed := !t.completed) else t] + HandleToggle(tasks[1..], id)
  }

  /** Toggling the same id twice gives back the list. */
  lemma HandleToggleTwice(tasks: seq<Task>, id: int)
    ensures HandleToggle(HandleToggle(tasks, id), id) == tasks
  {
    var r := HandleToggle(HandleToggle(tasks, id), id);
    assert forall i :: 0 <= i < |tasks| ==> r[i] == tasks[i];
  }

  /** The card's view of the server's rows. */
  function ToCard(t: Backend.WeeklyTask): Task {
    Task(t.id, t.title, t.channel, t.completed)
  }

  /** The server-side flip of the task with id `id`. */
  function FlipTask(id: int): Backend.WeeklyTask -> Backend.WeeklyTask {
    (t: Backend.WeeklyTask) => if t.id == id then t.(completed := !t.completed) else t
  }

  /** Flipping on the server and then drawing the cards is the card list's
      own toggle. */
  lemma FlipThenCard(xs: seq<Backend.WeeklyTask>, id: int)
    ensures MapSeq(MapSeq(xs, FlipTask(id)), ToCard) == HandleToggle(MapSeq(xs, ToCard), id)
  {
    var lhs := MapSeq(MapSeq(xs, FlipTask(id)), ToCard);
    var rhs := HandleToggle(MapSeq(xs, ToCard), id);
    forall i | 0 <= i < |xs|
      ensures lhs[i] == rhs[i]
    {
    }
  }

  /** A toggle leaves the store's task table flipped at the matching id. */
  lemma ToggledTable(s: Backend.Store, id: int)
    requires Backend.Valid(s)
    ensures Backend.ToggleTask(s, id).store.brand == s.brand
    ensures Backend.ToggleTask(s, id).store.tasks == MapSeq(s.tasks, FlipTask(id))
  {
    var tasks := Backend.ToggleTask(s, id).store.tasks;
    forall i | 0 <= i < |s.tasks|
      ensures tasks[i] == MapSeq(s.tasks, FlipTask(id))[i]
    {
      Backend.ToggleTaskEffect(s, id, i);
    }
  }

  /** The optimistic update agrees with the server: the card's list (the
      brand's tasks from the weekly-plan endpoint) after its own toggle is the
      list the endpoint returns once the PATCH has been applied. */
  lemma OptimisticToggleMatchesServer(s: Backend.Store, id: int)
    requires Backend.Valid(s)
    ensures Backend.WeeklyPlanList(s).Reply? ==>
              var after := Backend.WeeklyPlanList(Backend.ToggleTask(s, id).store);
              && after.Reply?
              && MapSeq(after.body, ToCard) == HandleToggle(MapSeq(Backend.WeeklyPlanList(s).body, ToCard), id)
  {
    if s.brand.Some? {
      var keep := Backend.OfBrand(s.brand.value);
      ToggledTable(s, id);
      FilterMapCommute(s.tasks, keep, FlipTask(id));
      FlipThenCard(Filter(s.tasks, keep), id);
    }
  }


  /* ---------------------------------------------------------------------
     Progress
     --------------------------------------------------------------------- */

  function CompletedCount(tasks: seq<Task>): (n: nat)
    ensures n <= |tasks|
    ensures n == |tasks| <==> forall i :: 0 <= i < |tasks| ==> tasks[i].completed
    ensures n == 0 <==> forall i :: 0 <= i < |tasks| ==> !tasks[i].completed
    decreases |tasks|
  {
    if |tasks| == 0 then 0
    else (if tasks[0].completed then 1 else 0) + CompletedCount(tasks[1..])
  }

  /** `Math.round(done / total * 100)` on exact rationals: the integer
      nearest to the percentage, halves rounded up. */
  function RoundedPercent(done: nat, total: nat): (p: int)
    requires done <= total && total > 0
    ensures 0 <= p <= 100
    ensures total * (2 * p - 1) <= 200 * done < total * (2 * p + 1)
  {
    var p := (200 * done + total) / (2 * total);
    DivBounds(200 * done + total, 2 * total);
    assert 200 * done + total < 2 * total * 101 by {
      MulLeq(done, total, 200);
    }
    MulCancelLess(2 * total, p, 101);
    assert 2 * total * p == total * (2 * p);
    assert total * (2 * p - 1) == total * (2 * p) - total;
    assert total * (2 * p + 1) == total * (2 * p) + total;
    p
  }

  /** More tasks done out of the same total never rounds lower. */
  lemma RoundedPercentMonotone(c1: nat, c2: nat, total: nat)
    requires c1 <= c2 <= total && total > 0
    ensures RoundedPercent(c1, total) <= RoundedPercent(c2, total)
  {
    DivMonotone(200 * c1 + total, 200 * c2 + total, 2 * total);
  }

  /** The progress bar: 0 for an empty list, otherwise the rounded
      percentage of completed tasks. */
  function Progress(tasks: seq<Task>): (p: int)
    ensures 0 <= p <= 100
    ensures |tasks| == 0 ==> p == 0
    ensures |tasks| > 0 ==>
              |tasks| * (2 * p - 1) <= 200 * CompletedCount(tasks) < |tasks| * (2 * p + 1)
  {
    if |tasks| == 0 then 0 else RoundedPercent(CompletedCount(tasks), |tasks|)
  }

  /** A finished plan shows a full bar and an untouched one an empty bar. */
  lemma ProgressEnds(tasks: seq<Task>)
    ensures (forall i :: 0 <= i < |tasks| ==> tasks[i].completed) && |tasks| > 0 ==> Progress(tasks) == 100
    ensures (forall i :: 0 <= i < |tasks| ==> !tasks[i].completed) ==> Progress(tasks) == 0
  {
    var n := |tasks|;
    if n > 0 {
      if CompletedCount(tasks) == n {
        DivUnique(200 * n + n, 2 * n, 100);
      }
      if CompletedCount(tasks) == 0 {
        DivUnique(n, 2 * n, 0);
      }
    }
  }

  /** Completing one more task never shrinks the bar. */
  lemma ProgressMonotone(tasks: seq<Task>, id: int)
    requires forall i :: 0 <= i < |tasks| && tasks[i].id == id ==> !tasks[i].completed
    ensures Progress(tasks) <= Progress(HandleToggle(tasks, id))
  {
    CountNotDecreased(tasks, id);
    if |tasks| > 0 {
      RoundedPercentMonotone(CompletedCount(tasks), CompletedCount(HandleToggle(tasks, id)), |tasks|);
    }
  }

  /* Arithmetic facts about Euclidean division by a positive divisor. */

  lemma DivBounds(a: int, d: int)
    requires d > 0
    ensures d * (a / d) <= a < d * (a / d) + d
  {
    assert a == d * (a / d) + a % d;
  }

  lemma MulLess(a: int, b: int, k: int)
    requires a < b && k > 0
    ensures k * a < k * b
  {
    assert k * b - k * a == k * (b - a);
  }

  lemma MulLeq(a: int, b: int, k: int)
    requires a <= b && k > 0
    ensures k * a <= k * b
  {
    if a < b {
      MulLess(a, b, k);
    }
  }

  lemma MulCancelLess(d: int, q: int, k: int)
    requires d > 0 && d * q < d * k
    ensures q < k
  {
    if q >= k {
      MulLeq(k, q, d);
    }
  }

  lemma DivUnique(a: int, d: int, q: int)
    requires d > 0 && d * q <= a < d * q + d
    ensures a / d == q
  {
    var q0 := a / d;
    DivBounds(a, d);
    assert d * q0 <= a < d * q0 + d;
    assert d * q < d * q0 + d;
    assert d * q0 < d * q + d;
    assert d * (q0 + 1) == d * q0 + d;
    assert d * (q + 1) == d * q + d;
    MulCancelLess(d, q, q0 + 1);
    MulCancelLess(d, q0, q + 1);
  }

  lemma DivMonotone(a: int, b: int, d: int)
    requires a <= b && d > 0
    ensures a / d <= b / d
  {
    var qa := a / d;
    var qb := b / d;
    DivBounds(a, d);
    DivBounds(b, d);
    assert d * qa <= a <= b < d * qb + d;
    assert d * (qb + 1) == d * qb + d;
    MulCancelLess(d, qa, qb + 1);
  }

  lemma {:induction false} CountNotDecreased(tasks: seq<Task>, id: int)
    requires forall i :: 0 <= i < |tasks| && tasks[i].id == id ==> !tasks[i].completed
    ensures CompletedCount(tasks) <= CompletedCount(HandleToggle(tasks, id))
    decreases |tasks|
  {
    if |tasks| > 0 {
      CountNotDecreased(tasks[1..], id);
      assert HandleToggle(tasks, id)[1..] == HandleToggle(tasks[1..], id);
    }
  }
}
