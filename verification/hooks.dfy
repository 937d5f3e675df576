/** The four list hooks as instances of the generic store: guests and
    vendors put a new row first; tasks and budget items append it and
    re-sort, by due date and by category. The date parse and the string
    collation are parameters: `dateKey` stands for the instant a well-formed
    due date denotes, `collate` for the locale's collation order. */
module Hooks {
  import opened Wrappers
  import opened Records
  import opened Auth
  import opened Store
  import Sorting

  /** `useGuests`: rows found by `id`, patches spread over rows, new rows first. */
  function Guests(): (cfg: Config<Guest, GuestPatch>)
    ensures cfg.policy.Prepend?
    ensures forall g: Guest :: cfg.idOf(g) == g.id
    ensures forall g: Guest, p: GuestPatch :: cfg.merge(g, p) == MergeGuest(g, p)
  {
    Config((g: Guest) => g.id, MergeGuest, Prepend)
  }

  /** `useVendors`: rows found by `id`, patches spread over rows, new rows first. */
  function Vendors(): (cfg: Config<Vendor, VendorPatch>)
    ensures cfg.policy.Prepend?
    ensures forall v: Vendor :: cfg.idOf(v) == v.id
    ensures forall v: Vendor, p: VendorPatch :: cfg.merge(v, p) == MergeVendor(v, p)
  {
    Config((v: Vendor) => v.id, MergeVendor, Prepend)
  }

  function TaskKey(dateKey: string -> int): Task -> int
  {
    (t: Task) => dateKey(t.due_date)
  }

  function BudgetKey(collate: string -> int): Budget -> int
  {
    (b: Budget) => collate(b.category)
  }

  /** `useTasks`: new tasks appended and the list re-sorted by due date. */
  function Tasks(dateKey: string -> int): (cfg: Config<Task, TaskPatch>)
    ensures cfg.policy.SortedBy?
    ensures forall t: Task :: cfg.policy.key(t) == dateKey(t.due_date)
    ensures forall t: Task :: cfg.idOf(t) == t.id
    ensures forall t: Task, p: TaskPatch :: cfg.merge(t, p) == MergeTask(t, p)
  {
    Config((t: Task) => t.id, MergeTask, SortedBy(TaskKey(dateKey)))
  }

  /** `useBudget`: new items appended and the list re-sorted by category. */
  function BudgetItems(collate: string -> int): (cfg: Config<Budget, BudgetPatch>)
    ensures cfg.policy.SortedBy?
    ensures forall b: Budget :: cfg.policy.key(b) == collate(b.category)
    ensures forall b: Budget :: cfg.idOf(b) == b.id
    ensures forall b: Budget, p: BudgetPatch :: cfg.merge(b, p) == MergeBudget(b, p)
  {
    Config((b: Budget) => b.id, MergeBudget, SortedBy(BudgetKey(collate)))
  }

  /** A new guest goes in front of the cached guests, which are otherwise
      untouched; likewise a new vendor. */
  lemma GuestAndVendorAddPrepend(gs: Cache<Guest>, g: Guest, more: seq<Guest>,
                                 vs: Cache<Vendor>, v: Vendor, others: seq<Vendor>, u: User)
    ensures Add(Guests(), gs, Some(u), Ok([g] + more)).rows == [g] + gs.rows
    ensures Add(Vendors(), vs, Some(u), Ok([v] + others)).rows == [v] + vs.rows
  {
    var rg := Add(Guests(), gs, Some(u), Ok([g] + more)).rows;
    assert rg == [rg[0]] + rg[1..];
    var rv := Add(Vendors(), vs, Some(u), Ok([v] + others)).rows;
    assert rv == [rv[0]] + rv[1..];
  }

  /** On tasks already in due-date order, an added task lands right after
      every task due no later than it and before the first task due later. */
  lemma TaskAddInsertsInOrder(dateKey: string -> int, c: Cache<Task>, t: Task, more: seq<Task>, u: User)
    requires Sorting.Sorted(TaskKey(dateKey), c.rows)
    ensures
      var k := Sorting.FirstAbove(TaskKey(dateKey), c.rows, t);
      && Add(Tasks(dateKey), c, Some(u), Ok([t] + more)).rows == c.rows[..k] + [t] + c.rows[k..]
      && (forall i :: 0 <= i < k ==> dateKey(c.rows[i].due_date) <= dateKey(t.due_date))
      && (forall i :: k <= i < |c.rows| ==> dateKey(t.due_date) < dateKey(c.rows[i].due_date))
  {
    SortedAddInserts(Tasks(dateKey), c, t, more, u);
  }

  /** The same for budget items ordered by category. */
  lemma BudgetAddInsertsInOrder(collate: string -> int, c: Cache<Budget>, b: Budget, more: seq<Budget>, u: User)
    requires Sorting.Sorted(BudgetKey(collate), c.rows)
    ensures
      var k := Sorting.FirstAbove(BudgetKey(collate), c.rows, b);
      && Add(BudgetItems(collate), c, Some(u), Ok([b] + more)).rows == c.rows[..k] + [b] + c.rows[k..]
      && (forall i :: 0 <= i < k ==> collate(c.rows[i].category) <= collate(b.category))
      && (forall i :: k <= i < |c.rows| ==> collate(b.category) < collate(c.rows[i].category))
  {
    SortedAddInserts(BudgetItems(collate), c, b, more, u);
  }

  /** Worked example: with categories collating as "Catering" < "Flowers" <
      "Music", adding the "Flowers" item to the ["Catering", "Music"] items
      gives ["Catering", "Flowers", "Music"]. */
  lemma BudgetInsertExample(collate: string -> int, catering: Budget, music: Budget, flowers: Budget, u: User)
    requires collate(catering.category) < collate(flowers.category) < collate(music.category)
    ensures Add(BudgetItems(collate), Cache([catering, music], false), Some(u), Ok([flowers])).rows
         == [catering, flowers, music]
  {
    AddInMiddle(BudgetItems(collate), catering, flowers, music, u);
  }

  /** Worked example: a task due 2024-01-01 added to tasks due 2024-02-01
      and 2024-03-01 goes first. */
  lemma TaskInsertExample(dateKey: string -> int, feb: Task, mar: Task, jan: Task, u: User)
    requires dateKey(jan.due_date) < dateKey(feb.due_date) < dateKey(mar.due_date)
    ensures Add(Tasks(dateKey), Cache([feb, mar], false), Some(u), Ok([jan])).rows == [jan, feb, mar]
  {
    AddInFront(Tasks(dateKey), jan, feb, mar, u);
  }

  /** Under the sorted policy, a row keyed strictly between two cached rows
      goes between them. */
  lemma AddInMiddle<T, P>(cfg: Config<T, P>, a: T, x: T, b: T, u: User)
    requires cfg.policy.SortedBy? && cfg.policy.key(a) < cfg.policy.key(x) < cfg.policy.key(b)
    ensures Add(cfg, Cache([a, b], false), Some(u), Ok([x])).rows == [a, x, b]
  {
    var s, key := [a, b], cfg.policy.key;
    assert [b][1..] == [];
    assert Sorting.FirstAbove(key, [b], x) == 0;
    assert s[1..] == [b];
    assert Sorting.FirstAbove(key, s, x) == 1;
    assert [x] + [] == [x];
    SortedAddInserts(cfg, Cache(s, false), x, [], u);
    assert s[..1] + [x] + s[1..] == [a, x, b];
  }

  /** Under the sorted policy, a row keyed below two cached rows goes first. */
  lemma AddInFront<T, P>(cfg: Config<T, P>, x: T, a: T, b: T, u: User)
    requires cfg.policy.SortedBy? && cfg.policy.key(x) < cfg.policy.key(a) < cfg.policy.key(b)
    ensures Add(cfg, Cache([a, b], false), Some(u), Ok([x])).rows == [x, a, b]
  {
    var s, key := [a, b], cfg.policy.key;
    assert Sorting.FirstAbove(key, s, x) == 0;
    assert [x] + [] == [x];
    SortedAddInserts(cfg, Cache(s, false), x, [], u);
    assert s[..0] + [x] + s[0..] == [x, a, b];
  }

  /** Ticking a task's completion box never moves it out of due-date order. */
  lemma CompletionKeepsTaskOrder(dateKey: string -> int, c: Cache<Task>, id: Id, done: bool, ack: Ack)
    requires Sorting.Sorted(TaskKey(dateKey), c.rows)
    ensures Sorting.Sorted(TaskKey(dateKey), Update(Tasks(dateKey), c, id, CompletedPatch(done), ack).rows)
  {
    if ack.Ok? {
      UpdateKeepsSorted(TaskKey(dateKey), (t: Task) => t.id, MergeTask, c.rows, id, CompletedPatch(done));
    }
  }

  /** Re-checking a guest's confirmation with the same value twice is the
      same as doing it once. */
  lemma ConfirmTwiceIsConfirmOnce(c: Cache<Guest>, id: Id, confirmed: bool)
    ensures Update(Guests(), Update(Guests(), c, id, ConfirmedPatch(confirmed), Ok(())), id, ConfirmedPatch(confirmed), Ok(()))
         == Update(Guests(), c, id, ConfirmedPatch(confirmed), Ok(()))
  {
    UpdateIdempotent((g: Guest) => g.id, MergeGuest, c.rows, id, ConfirmedPatch(confirmed));
  }
}
