/** The dashboard's own logic on top of the hooks: the add-form submit
    guards and their draft resets, the summary counters, the progress
    figure, the "next tasks" panel, the budget badge and totals, and the
    wedding form's initial values. */
module Dashboard {
  import opened Wrappers
  import opened Records
  import opened Auth
  import opened Store
  import opened Hooks
  import Sorting
  import WeddingInfoHook

  // ---------------------------------------------------------------------
  // Add forms

  const EmptyGuestDraft := GuestDraft("", "", "", false, false, "")
  const EmptyVendorDraft := VendorDraft("", "", "", 0.0, "Pendente", "")
  const EmptyTaskDraft := TaskDraft("", "", "", false, "Média", "Geral")
  const EmptyBudgetDraft := BudgetDraft("", 0.0, 0.0, "")

  /** Guest submit: skipped entirely while the name is empty, so nothing is
      sent and the draft stays; otherwise the draft is sent stamped with the
      owner (when one is signed in), the answer is applied to the cache, and
      the form is cleared whatever the outcome. The third component is the
      insert request sent, if any. */
  function SubmitGuest(c: Cache<Guest>, d: GuestDraft, user: Option<User>, inserted: Remote<seq<Guest>>)
    : (r: (Cache<Guest>, GuestDraft, Option<InsertPayload<GuestDraft>>))
    requires inserted.Ok? ==> |inserted.value| > 0
    ensures d.name == "" ==> r == (c, d, None)
    ensures d.name != "" ==> r.1 == EmptyGuestDraft && r.0 == Add(Guests(), c, user, inserted)
    ensures r.2.Some? <==> d.name != "" && user.Some?
    ensures r.2.Some? ==> r.2.value.fields == d && r.2.value.user_id == user.value.id
  {
    if d.name != "" then (Add(Guests(), c, user, inserted), EmptyGuestDraft, InsertRequest(user, d)) else (c, d, None)
  }

  /** Vendor submit needs both a name and a category. */
  function SubmitVendor(c: Cache<Vendor>, d: VendorDraft, user: Option<User>, inserted: Remote<seq<Vendor>>)
    : (r: (Cache<Vendor>, VendorDraft, Option<InsertPayload<VendorDraft>>))
    requires inserted.Ok? ==> |inserted.value| > 0
    ensures d.name == "" || d.category == "" ==> r == (c, d, None)
    ensures d.name != "" && d.category != "" ==> r.1 == EmptyVendorDraft && r.0 == Add(Vendors(), c, user, inserted)
    ensures r.2.Some? <==> d.name != "" && d.category != "" && user.Some?
    ensures r.2.Some? ==> r.2.value.fields == d && r.2.value.user_id == user.value.id
  {
    if d.name != "" && d.category != "" then (Add(Vendors(), c, user, inserted), EmptyVendorDraft, InsertRequest(user, d))
    else (c, d, None)
  }

  /** Task submit needs a title. */
  function SubmitTask(dateKey: string -> int, c: Cache<Task>, d: TaskDraft, user: Option<User>, inserted: Remote<seq<Task>>)
    : (r: (Cache<Task>, TaskDraft, Option<InsertPayload<TaskDraft>>))
    requires inserted.Ok? ==> |inserted.value| > 0
    ensures d.title == "" ==> r == (c, d, None)
    ensures d.title != "" ==> r.1 == EmptyTaskDraft && r.0 == Add(Tasks(dateKey), c, user, inserted)
    ensures r.2.Some? <==> d.title != "" && user.Some?
    ensures r.2.Some? ==> r.2.value.fields == d && r.2.value.user_id == user.value.id
  {
    if d.title != "" then (Add(Tasks(dateKey), c, user, inserted), EmptyTaskDraft, InsertRequest(user, d)) else (c, d, None)
  }

  /** Budget submit needs a category. */
  function SubmitBudgetItem(collate: string -> int, c: Cache<Budget>, d: BudgetDraft, user: Option<User>, inserted: Remote<seq<Budget>>)
    : (r: (Cache<Budget>, BudgetDraft, Option<InsertPayload<BudgetDraft>>))
    requires inserted.Ok? ==> |inserted.value| > 0
    ensures d.category == "" ==> r == (c, d, None)
    ensures d.category != "" ==> r.1 == EmptyBudgetDraft && r.0 == Add(BudgetItems(collate), c, user, inserted)
    ensures r.2.Some? <==> d.category != "" && user.Some?
    ensures r.2.Some? ==> r.2.value.fields == d && r.2.value.user_id == user.value.id
  {
    if d.category != "" then (Add(BudgetItems(collate), c, user, inserted), EmptyBudgetDraft, InsertRequest(user, d))
    else (c, d, None)
  }

  /** A second press of any add button after a submit has completed sends
      nothing and changes nothing: the reset draft never passes its form's
      guard. A press while the insert is still pending is not covered. */
  lemma ResubmitDoesNothing(gc: Cache<Guest>, gd: GuestDraft, gi: Remote<seq<Guest>>, gi2: Remote<seq<Guest>>,
                            vc: Cache<Vendor>, vd: VendorDraft, vi: Remote<seq<Vendor>>, vi2: Remote<seq<Vendor>>,
                            dateKey: string -> int, tc: Cache<Task>, td: TaskDraft, ti: Remote<seq<Task>>, ti2: Remote<seq<Task>>,
                            collate: string -> int, bc: Cache<Budget>, bd: BudgetDraft, bi: Remote<seq<Budget>>, bi2: Remote<seq<Budget>>,
                            user: Option<User>)
    requires gi.Ok? ==> |gi.value| > 0
    requires gi2.Ok? ==> |gi2.value| > 0
    requires vi.Ok? ==> |vi.value| > 0
    requires vi2.Ok? ==> |vi2.value| > 0
    requires ti.Ok? ==> |ti.value| > 0
    requires ti2.Ok? ==> |ti2.value| > 0
    requires bi.Ok? ==> |bi.value| > 0
    requires bi2.Ok? ==> |bi2.value| > 0
    ensures var g := SubmitGuest(gc, gd, user, gi); SubmitGuest(g.0, g.1, user, gi2) == (g.0, g.1, None)
    ensures var v := SubmitVendor(vc, vd, user, vi); SubmitVendor(v.0, v.1, user, vi2) == (v.0, v.1, None)
    ensures var t := SubmitTask(dateKey, tc, td, user, ti); SubmitTask(dateKey, t.0, t.1, user, ti2) == (t.0, t.1, None)
    ensures var b := SubmitBudgetItem(collate, bc, bd, user, bi); SubmitBudgetItem(collate, b.0, b.1, user, bi2) == (b.0, b.1, None)
  {
  }

  /** Submitting keeps the cache the user's own: the request stamps the
      signed-in user as owner, so when the store's row carries the owner it
      was sent, every cached row still belongs to that user. */
  lemma SubmitKeepsOwnership(u: User,
                             gc: Cache<Guest>, gd: GuestDraft, g: Guest, gm: seq<Guest>,
                             dateKey: string -> int, tc: Cache<Task>, td: TaskDraft, t: Task, tm: seq<Task>)
    requires OwnedBy((x: Guest) => x.user_id, gc.rows, u.id)
    requires var sent := SubmitGuest(gc, gd, Some(u), Ok([g] + gm)).2; sent.Some? ==> g.user_id == sent.value.user_id
    requires OwnedBy((x: Task) => x.user_id, tc.rows, u.id)
    requires var sent := SubmitTask(dateKey, tc, td, Some(u), Ok([t] + tm)).2; sent.Some? ==> t.user_id == sent.value.user_id
    ensures OwnedBy((x: Guest) => x.user_id, SubmitGuest(gc, gd, Some(u), Ok([g] + gm)).0.rows, u.id)
    ensures OwnedBy((x: Task) => x.user_id, SubmitTask(dateKey, tc, td, Some(u), Ok([t] + tm)).0.rows, u.id)
  {
    if gd.name != "" {
      AddKeepsOwnership(Guests(), (x: Guest) => x.user_id, gc, u, g, gm);
    }
    if td.title != "" {
      AddKeepsOwnership(Tasks(dateKey), (x: Task) => x.user_id, tc, u, t, tm);
    }
  }

  // ---------------------------------------------------------------------
  // Counters

  /** How many rows satisfy `p` (`rows.filter(p).length`). */
  function Count<T>(p: T -> bool, s: seq<T>): (n: nat)
    ensures n <= |s|
  {
    if |s| == 0 then 0 else (if p(s[0]) then 1 else 0) + Count(p, s[1..])
  }

  function CompletedTasks(tasks: seq<Task>): nat
  {
    Count((t: Task) => t.completed, tasks)
  }

  function ConfirmedGuests(guests: seq<Guest>): nat
  {
    Count((g: Guest) => g.confirmed, guests)
  }

  /** Every row satisfies `p` exactly when the count is the whole length. */
  lemma {:induction false} CountAllIff<T>(p: T -> bool, s: seq<T>)
    ensures Count(p, s) == |s| <==> forall i :: 0 <= i < |s| ==> p(s[i])
  {
    if |s| > 0 {
      CountAllIff(p, s[1..]);
      assert forall i :: 1 <= i < |s| ==> s[1..][i - 1] == s[i];
    }
  }

  /** The last row contributes on its own. */
  lemma {:induction false} CountSnoc<T>(p: T -> bool, s: seq<T>)
    requires |s| > 0
    ensures Count(p, s) == Count(p, s[..|s| - 1]) + (if p(s[|s| - 1]) then 1 else 0)
  {
    if |s| > 1 {
      CountSnoc(p, s[1..]);
      assert s[1..][..|s| - 2] == s[..|s| - 1][1..];
    } else {
      assert s[..0] == [];
    }
  }

  lemma {:induction false} CountAppend<T>(p: T -> bool, a: seq<T>, b: seq<T>)
    ensures Count(p, a + b) == Count(p, a) + Count(p, b)
  {
    if |a| > 0 {
      assert (a + b)[1..] == a[1..] + b;
      CountAppend(p, a[1..], b);
    } else {
      assert a + b == b;
    }
  }

  /** Placing a row anywhere adds its own contribution to the count. */
  lemma CountInsert<T>(p: T -> bool, key: T -> int, s: seq<T>, x: T)
    ensures Count(p, Sorting.Insert(key, s, x)) == Count(p, s) + (if p(x) then 1 else 0)
  {
    var k := Sorting.FirstAbove(key, s, x);
    var a, b := s[..k], s[k..];
    assert s == a + b;
    CountAppend(p, a, b);
    CountAppend(p, a + [x], b);
    CountAppend(p, a, [x]);
    assert [x][1..] == [];
  }

  /** Re-sorting never changes a count. */
  lemma {:induction false} CountSort<T>(p: T -> bool, key: T -> int, s: seq<T>)
    ensures Count(p, Sorting.Sort(key, s)) == Count(p, s)
    decreases |s|
  {
    if |s| > 0 {
      var init, last := s[..|s| - 1], s[|s| - 1];
      var sorted := Sorting.Sort(key, init);
      assert Sorting.Sort(key, s) == Sorting.Insert(key, sorted, last);
      CountSort(p, key, init);
      CountInsert(p, key, sorted, last);
      CountSnoc(p, s);
    }
  }

  /** Adding a task raises the total by one and the completed count by one
      exactly when the new task is already completed. */
  lemma TaskAddCounts(dateKey: string -> int, c: Cache<Task>, t: Task, more: seq<Task>, u: User)
    ensures var r := Add(Tasks(dateKey), c, Some(u), Ok([t] + more)).rows;
      && |r| == |c.rows| + 1
      && CompletedTasks(r) == CompletedTasks(c.rows) + (if t.completed then 1 else 0)
  {
    var p := (x: Task) => x.completed;
    CountSort(p, TaskKey(dateKey), c.rows + [t]);
    CountSnoc(p, c.rows + [t]);
    assert (c.rows + [t])[..|c.rows|] == c.rows;
  }

  /** Marking a task done (or not) never lowers (raises) the completed count. */
  lemma {:induction false} CompletionMovesCountOneWay(rows: seq<Task>, id: Id, done: bool)
    ensures var r := UpdateRows((t: Task) => t.id, MergeTask, rows, id, CompletedPatch(done));
      if done then CompletedTasks(r) >= CompletedTasks(rows) else CompletedTasks(r) <= CompletedTasks(rows)
  {
    if |rows| > 0 {
      CompletionMovesCountOneWay(rows[1..], id, done);
      var r := UpdateRows((t: Task) => t.id, MergeTask, rows, id, CompletedPatch(done));
      assert r[1..] == UpdateRows((t: Task) => t.id, MergeTask, rows[1..], id, CompletedPatch(done));
    }
  }

  /** The progress bar: completed over total, in percent; 0 with no tasks. */
  function Progress(tasks: seq<Task>): (p: real)
    ensures 0.0 <= p <= 100.0
    ensures |tasks| == 0 ==> p == 0.0
    ensures |tasks| > 0 ==> p * (|tasks| as real) == (CompletedTasks(tasks) as real) * 100.0
  {
    if |tasks| > 0 then (CompletedTasks(tasks) as real / |tasks| as real) * 100.0 else 0.0
  }

  /** The bar is full exactly when there are tasks and every one is done. */
  lemma ProgressFullIff(tasks: seq<Task>)
    ensures Progress(tasks) == 100.0 <==> |tasks| > 0 && forall i :: 0 <= i < |tasks| ==> tasks[i].completed
  {
    CountAllIff((t: Task) => t.completed, tasks);
    if |tasks| > 0 {
      var n, c := |tasks| as real, CompletedTasks(tasks) as real;
      assert Progress(tasks) == (c / n) * 100.0;
      if Progress(tasks) == 100.0 {
        assert c / n == 1.0;
        assert c == n;
      }
      if c == n {
        assert c / n == 1.0;
      }
    }
  }

  // ---------------------------------------------------------------------
  // Next tasks panel

  /** `tasks.filter(t => !t.completed)` */
  function Pending(tasks: seq<Task>): (r: seq<Task>)
    ensures |r| + CompletedTasks(tasks) == |tasks|
    ensures forall i :: 0 <= i < |r| ==> !r[i].completed && r[i] in tasks
  {
    if |tasks| == 0 then []
    else
      var rest := Pending(tasks[1..]);
      if tasks[0].completed then rest else [tasks[0]] + rest
  }

  /** The panel: the first five pending tasks, in cache order. */
  function NextTasks(tasks: seq<Task>): (r: seq<Task>)
    ensures |r| <= 5
    ensures |r| == if |tasks| - CompletedTasks(tasks) < 5 then |tasks| - CompletedTasks(tasks) else 5
    ensures forall i :: 0 <= i < |r| ==> !r[i].completed && r[i] in tasks
    ensures r <= Pending(tasks)
  {
    var pending := Pending(tasks);
    if |pending| <= 5 then pending else pending[..5]
  }

  /** `Pending` keeps the cache order: it distributes over concatenation,
      so the panel shows the earliest pending tasks. */
  lemma {:induction false} PendingDistributes(a: seq<Task>, b: seq<Task>)
    ensures Pending(a + b) == Pending(a) + Pending(b)
  {
    if |a| > 0 {
      assert (a + b)[0] == a[0];
      assert (a + b)[1..] == a[1..] + b;
      PendingDistributes(a[1..], b);
    } else {
      assert a + b == b;
    }
  }

  /** Every pending task is in `Pending`. */
  lemma {:induction false} PendingHasAll(tasks: seq<Task>, i: nat)
    requires i < |tasks| && !tasks[i].completed
    ensures tasks[i] in Pending(tasks)
  {
    if i > 0 {
      PendingHasAll(tasks[1..], i - 1);
    }
  }

  // ---------------------------------------------------------------------
  // Budget

  datatype BudgetBadge = WithinBudget | OverBudget

  /** The per-item badge. */
  function Badge(item: Budget): (b: BudgetBadge)
    ensures b == WithinBudget <==> item.actual_amount <= item.planned_amount
  {
    if item.actual_amount <= item.planned_amount then WithinBudget else OverBudget
  }

  /** `items.reduce((sum, item) => sum + f(item), 0)` */
  function Total<T>(f: T -> real, s: seq<T>): (t: real)
    ensures |s| == 1 ==> t == f(s[0])
    ensures (forall i :: 0 <= i < |s| ==> 0.0 <= f(s[i])) ==> 0.0 <= t
  {
    if |s| == 0 then 0.0 else f(s[0]) + Total(f, s[1..])
  }

  /** The "planned" card: the sum of every item's planned amount. */
  function TotalPlanned(budget: seq<Budget>): (t: real)
    ensures (forall i :: 0 <= i < |budget| ==> 0.0 <= budget[i].planned_amount) ==> 0.0 <= t
  {
    Total((b: Budget) => b.planned_amount, budget)
  }

  /** The "spent" card: the sum of every item's actual amount. */
  function TotalSpent(budget: seq<Budget>): (t: real)
    ensures (forall i :: 0 <= i < |budget| ==> 0.0 <= budget[i].actual_amount) ==> 0.0 <= t
  {
    Total((b: Budget) => b.actual_amount, budget)
  }

  /** The "remaining" figure is shown as healthy when it is not negative. */
  predicate RemainingHealthy(budget: seq<Budget>)
  {
    TotalPlanned(budget) - TotalSpent(budget) >= 0.0
  }

  /** When every item's badge says within budget, so does the overall
      remaining figure. */
  lemma {:induction false} AllWithinMeansHealthy(budget: seq<Budget>)
    requires forall i :: 0 <= i < |budget| ==> Badge(budget[i]) == WithinBudget
    ensures RemainingHealthy(budget)
  {
    if |budget| > 0 {
      AllWithinMeansHealthy(budget[1..]);
    }
  }

  /** The remaining figure is the sum of the items' own slack, planned minus
      spent, item by item. */
  lemma {:induction false} RemainingIsSumOfSlack(budget: seq<Budget>)
    ensures TotalPlanned(budget) - TotalSpent(budget)
         == Total((b: Budget) => b.planned_amount - b.actual_amount, budget)
  {
    if |budget| > 0 {
      RemainingIsSumOfSlack(budget[1..]);
    }
  }

  lemma {:induction false} TotalSnoc<T>(f: T -> real, s: seq<T>)
    requires |s| > 0
    ensures Total(f, s) == Total(f, s[..|s| - 1]) + f(s[|s| - 1])
  {
    if |s| > 1 {
      TotalSnoc(f, s[1..]);
      assert s[1..][..|s| - 2] == s[..|s| - 1][1..];
    } else {
      assert s[..0] == [];
    }
  }

  lemma {:induction false} TotalAppend<T>(f: T -> real, a: seq<T>, b: seq<T>)
    ensures Total(f, a + b) == Total(f, a) + Total(f, b)
  {
    if |a| > 0 {
      assert (a + b)[1..] == a[1..] + b;
      TotalAppend(f, a[1..], b);
    } else {
      assert a + b == b;
    }
  }

  lemma TotalInsert<T>(f: T -> real, key: T -> int, s: seq<T>, x: T)
    ensures Total(f, Sorting.Insert(key, s, x)) == Total(f, s) + f(x)
  {
    var k := Sorting.FirstAbove(key, s, x);
    var a, b := s[..k], s[k..];
    assert s == a + b;
    TotalAppend(f, a, b);
    TotalAppend(f, a + [x], b);
    TotalAppend(f, a, [x]);
    assert [x][1..] == [];
  }

  lemma {:induction false} TotalSort<T>(f: T -> real, key: T -> int, s: seq<T>)
    ensures Total(f, Sorting.Sort(key, s)) == Total(f, s)
    decreases |s|
  {
    if |s| > 0 {
      var init, last := s[..|s| - 1], s[|s| - 1];
      var sorted := Sorting.Sort(key, init);
      assert Sorting.Sort(key, s) == Sorting.Insert(key, sorted, last);
      TotalSort(f, key, init);
      TotalInsert(f, key, sorted, last);
      TotalSnoc(f, s);
    }
  }

  /** Adding a budget item raises both totals by exactly its amounts,
      whatever the re-sort does to the order. */
  lemma BudgetAddTotals(collate: string -> int, c: Cache<Budget>, b: Budget, more: seq<Budget>, u: User)
    ensures var r := Add(BudgetItems(collate), c, Some(u), Ok([b] + more)).rows;
      && TotalPlanned(r) == TotalPlanned(c.rows) + b.planned_amount
      && TotalSpent(r) == TotalSpent(c.rows) + b.actual_amount
  {
    var key := BudgetKey(collate);
    var planned := (x: Budget) => x.planned_amount;
    var spent := (x: Budget) => x.actual_amount;
    var grown := c.rows + [b];
    assert grown[..|c.rows|] == c.rows;
    TotalSort(planned, key, grown);
    TotalSnoc(planned, grown);
    TotalSort(spent, key, grown);
    TotalSnoc(spent, grown);
  }

  // ---------------------------------------------------------------------
  // Wedding form

  /** The form's initial values: each field of the cached row, or its
      default when there is no row or the field is empty (`value || default`). */
  function FormFrom(info: Option<WeddingInfo>): (f: WeddingForm)
    ensures info.None? ==> f == WeddingForm("", "", "", 0, 0.0, "Clássico")
    ensures f.style != ""
  {
    match info
    case None => WeddingForm("", "", "", 0, 0.0, "Clássico")
    case Some(w) =>
      WeddingForm(w.couple_names, w.wedding_date, w.venue, w.guest_count, w.budget_total,
                  if w.style != "" then w.style else "Clássico")
  }

  /** The form as the page keeps it. Its initial value is taken once, on
      the first render, while the wedding-info hook still holds its mounted
      state; nothing refills it when the fetch later delivers the saved row,
      so until the user types, the form shows the defaults whatever the
      cache now holds. */
  function PageForm(current: WeddingInfoHook.InfoCache): (f: WeddingForm)
    ensures f == WeddingForm("", "", "", 0, 0.0, "Clássico")
  {
    FormFrom(WeddingInfoHook.Mounted.info)
  }

  /** Counterexample to the save keeping what was saved: after a reload the
      fetch caches the saved row, yet pressing save without retyping sends
      the default couple names. */
  lemma ReloadedSaveErasesInfo(u: User, row: WeddingInfo, now: string)
    requires row.couple_names != ""
    ensures var c := WeddingInfoHook.Fetch(WeddingInfoHook.Mounted, Some(u), Ok(row));
      && c.info == Some(row)
      && WeddingInfoHook.Request(Some(u), PageForm(c), now).value.form.couple_names != row.couple_names
  {
  }

  /** The corrected form: refilled from the cached row whenever the cache
      changes, as an effect on the wedding-info state would do. */
  function SyncedForm(c: WeddingInfoHook.InfoCache): (f: WeddingForm)
    ensures c.info.Some? && c.info.value.style != "" ==> f == WeddingInfoHook.FormOf(c.info.value)
    ensures c.info.Some? && c.info.value.style == "" ==> f == WeddingInfoHook.FormOf(c.info.value).(style := "Clássico")
    ensures c.info.None? ==> f == WeddingForm("", "", "", 0, 0.0, "Clássico")
  {
    FormFrom(c.info)
  }

  /** With the corrected form, a save right after a reload sends exactly the
      saved fields, so the stored row is kept (given a style was saved). */
  lemma ReloadedSaveKeepsInfo(u: User, row: WeddingInfo, now: string)
    requires row.style != ""
    ensures var c := WeddingInfoHook.Fetch(WeddingInfoHook.Mounted, Some(u), Ok(row));
      WeddingInfoHook.Request(Some(u), SyncedForm(c), now).value.form == WeddingInfoHook.FormOf(row)
  {
  }

  /** Under the corrected form, a successful save refills the form with
      what was saved, whatever was cached before; an empty style comes back
      as the default one. */
  lemma FormRoundTrip(form: WeddingForm, u: User, now: string, row: WeddingInfo, c: WeddingInfoHook.InfoCache)
    requires WeddingInfoHook.Echoes(row, WeddingInfoHook.Request(Some(u), form, now).value)
    ensures var after := WeddingInfoHook.Upsert(c, Some(u), Ok(row));
      && (form.style != "" ==> SyncedForm(after) == form)
      && (form.style == "" ==> SyncedForm(after) == form.(style := "Clássico"))
  {
  }
}
