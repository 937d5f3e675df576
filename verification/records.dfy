/** The row shapes of the five remote tables, the drafts the dashboard fills
    in before an insert, and the partial updates merged into cached rows. */
module Records {
  import opened Wrappers

  /** Identifiers and timestamps are opaque strings assigned by the store. */
  type Id = string

  datatype Guest = Guest(
    id: Id,
    name: string,
    email: string,
    phone: string,
    confirmed: bool,
    plus_one: bool,
    dietary_restrictions: string,
    created_at: string,
    user_id: Id)

  datatype Vendor = Vendor(
    id: Id,
    name: string,
    category: string,
    contact: string,
    price: real,
    status: string,
    notes: string,
    created_at: string,
    user_id: Id)

  datatype Task = Task(
    id: Id,
    title: string,
    description: string,
    due_date: string,
    completed: bool,
    priority: string,
    category: string,
    created_at: string,
    user_id: Id)

  datatype Budget = Budget(
    id: Id,
    category: string,
    planned_amount: real,
    actual_amount: real,
    notes: string,
    created_at: string,
    user_id: Id)

  datatype WeddingInfo = WeddingInfo(
    id: Id,
    couple_names: string,
    wedding_date: string,
    venue: string,
    guest_count: int,
    budget_total: real,
    style: string,
    created_at: string,
    updated_at: string,
    user_id: Id)

  /** Drafts: a row without the fields the store or the access layer fills in
      (`id`, `created_at`, `user_id`). */
  datatype GuestDraft = GuestDraft(
    name: string,
    email: string,
    phone: string,
    confirmed: bool,
    plus_one: bool,
    dietary_restrictions: string)

  datatype VendorDraft = VendorDraft(
    name: string,
    category: string,
    contact: string,
    price: real,
    status: string,
    notes: string)

  datatype TaskDraft = TaskDraft(
    title: string,
    description: string,
    due_date: string,
    completed: bool,
    priority: string,
    category: string)

  datatype BudgetDraft = BudgetDraft(
    category: string,
    planned_amount: real,
    actual_amount: real,
    notes: string)

  /** The wedding form: the wedding-info row without `id`, `created_at`,
      `updated_at` and `user_id`. */
  datatype WeddingForm = WeddingForm(
    couple_names: string,
    wedding_date: string,
    venue: string,
    guest_count: int,
    budget_total: real,
    style: string)

  /** A partial update: every field of the row may be present or absent,
      the identifying and bookkeeping fields included, exactly as the
      partial record type the hooks accept. */
  datatype GuestPatch = GuestPatch(
    id: Option<Id>,
    name: Option<string>,
    email: Option<string>,
    phone: Option<string>,
    confirmed: Option<bool>,
    plus_one: Option<bool>,
    dietary_restrictions: Option<string>,
    created_at: Option<string>,
    user_id: Option<Id>)

  datatype VendorPatch = VendorPatch(
    id: Option<Id>,
    name: Option<string>,
    category: Option<string>,
    contact: Option<string>,
    price: Option<real>,
    status: Option<string>,
    notes: Option<string>,
    created_at: Option<string>,
    user_id: Option<Id>)

  datatype TaskPatch = TaskPatch(
    id: Option<Id>,
    title: Option<string>,
    description: Option<string>,
    due_date: Option<string>,
    completed: Option<bool>,
    priority: Option<string>,
    category: Option<string>,
    created_at: Option<string>,
    user_id: Option<Id>)

  datatype BudgetPatch = BudgetPatch(
    id: Option<Id>,
    category: Option<string>,
    planned_amount: Option<real>,
    actual_amount: Option<real>,
    notes: Option<string>,
    created_at: Option<string>,
    user_id: Option<Id>)

  /** The patches the dashboard actually sends: a guest's confirmation flag
      and a task's completion flag, nothing else. */
  function ConfirmedPatch(confirmed: bool): GuestPatch
  {
    GuestPatch(None, None, None, None, Some(confirmed), None, None, None, None)
  }

  function CompletedPatch(completed: bool): TaskPatch
  {
    TaskPatch(None, None, None, None, Some(completed), None, None, None, None)
  }

  /** One field of a spread `{ ...row, ...patch }`: the patch's value when the
      patch carries the field, the row's value otherwise. */
  predicate Spread<V(==)>(field: Option<V>, before: V, after: V)
  {
    (field.Some? ==> after == field.value) && (field.None? ==> after == before)
  }

  /** `{ ...row, ...patch }`: every field present in the patch overrides the
      row's, every absent field keeps the row's value. */
  function MergeGuest(g: Guest, p: GuestPatch): (r: Guest)
    ensures Spread(p.id, g.id, r.id) && Spread(p.name, g.name, r.name) && Spread(p.email, g.email, r.email)
    ensures Spread(p.phone, g.phone, r.phone) && Spread(p.confirmed, g.confirmed, r.confirmed)
    ensures Spread(p.plus_one, g.plus_one, r.plus_one)
    ensures Spread(p.dietary_restrictions, g.dietary_restrictions, r.dietary_restrictions)
    ensures Spread(p.created_at, g.created_at, r.created_at) && Spread(p.user_id, g.user_id, r.user_id)
  {
    Guest(
      GetOr(p.id, g.id),
      GetOr(p.name, g.name),
      GetOr(p.email, g.email),
      GetOr(p.phone, g.phone),
      GetOr(p.confirmed, g.confirmed),
      GetOr(p.plus_one, g.plus_one),
      GetOr(p.dietary_restrictions, g.dietary_restrictions),
      GetOr(p.created_at, g.created_at),
      GetOr(p.user_id, g.user_id))
  }

  function MergeVendor(v: Vendor, p: VendorPatch): (r: Vendor)
    ensures Spread(p.id, v.id, r.id) && Spread(p.name, v.name, r.name) && Spread(p.category, v.category, r.category)
    ensures Spread(p.contact, v.contact, r.contact) && Spread(p.price, v.price, r.price)
    ensures Spread(p.status, v.status, r.status) && Spread(p.notes, v.notes, r.notes)
    ensures Spread(p.created_at, v.created_at, r.created_at) && Spread(p.user_id, v.user_id, r.user_id)
  {
    Vendor(
      GetOr(p.id, v.id),
      GetOr(p.name, v.name),
      GetOr(p.category, v.category),
      GetOr(p.contact, v.contact),
      GetOr(p.price, v.price),
      GetOr(p.status, v.status),
      GetOr(p.notes, v.notes),
      GetOr(p.created_at, v.created_at),
      GetOr(p.user_id, v.user_id))
  }

  function MergeTask(t: Task, p: TaskPatch): (r: Task)
    ensures Spread(p.id, t.id, r.id) && Spread(p.title, t.title, r.title)
    ensures Spread(p.description, t.description, r.description) && Spread(p.due_date, t.due_date, r.due_date)
    ensures Spread(p.completed, t.completed, r.completed) && Spread(p.priority, t.priority, r.priority)
    ensures Spread(p.category, t.category, r.category)
    ensures Spread(p.created_at, t.created_at, r.created_at) && Spread(p.user_id, t.user_id, r.user_id)
  {
    Task(
      GetOr(p.id, t.id),
      GetOr(p.title, t.title),
      GetOr(p.description, t.description),
      GetOr(p.due_date, t.due_date),
      GetOr(p.completed, t.completed),
      GetOr(p.priority, t.priority),
      GetOr(p.category, t.category),
      GetOr(p.created_at, t.created_at),
      GetOr(p.user_id, t.user_id))
  }

  function MergeBudget(b: Budget, p: BudgetPatch): (r: Budget)
    ensures Spread(p.id, b.id, r.id) && Spread(p.category, b.category, r.category)
    ensures Spread(p.planned_amount, b.planned_amount, r.planned_amount)
    ensures Spread(p.actual_amount, b.actual_amount, r.actual_amount) && Spread(p.notes, b.notes, r.notes)
    ensures Spread(p.created_at, b.created_at, r.created_at) && Spread(p.user_id, b.user_id, r.user_id)
  {
    Budget(
      GetOr(p.id, b.id),
      GetOr(p.category, b.category),
      GetOr(p.planned_amount, b.planned_amount),
      GetOr(p.actual_amount, b.actual_amount),
      GetOr(p.notes, b.notes),
      GetOr(p.created_at, b.created_at),
      GetOr(p.user_id, b.user_id))
  }

  /** Merging the same patch twice is merging it once; the flag patches the
      dashboard sends change only their one flag. */
  lemma MergeIdempotent(g: Guest, gp: GuestPatch, v: Vendor, vp: VendorPatch,
                        t: Task, tp: TaskPatch, b: Budget, bp: BudgetPatch)
    ensures MergeGuest(MergeGuest(g, gp), gp) == MergeGuest(g, gp)
    ensures MergeVendor(MergeVendor(v, vp), vp) == MergeVendor(v, vp)
    ensures MergeTask(MergeTask(t, tp), tp) == MergeTask(t, tp)
    ensures MergeBudget(MergeBudget(b, bp), bp) == MergeBudget(b, bp)
  {
  }

  lemma FlagPatchesTouchOneField(g: Guest, confirmed: bool, t: Task, completed: bool)
    ensures MergeGuest(g, ConfirmedPatch(confirmed)) == g.(confirmed := confirmed)
    ensures MergeTask(t, CompletedPatch(completed)) == t.(completed := completed)
  {
  }
}
