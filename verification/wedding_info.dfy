/** The wedding-info hook: a single cached row per user instead of a list,
    fetched as one object and written by upsert. */
module WeddingInfoHook {
  import opened Wrappers
  import opened Records
  import opened Auth

  datatype InfoCache = InfoCache(info: Option<WeddingInfo>, loading: bool)

  /** On mount: nothing cached, loading. */
  const Mounted := InfoCache(None, true)

  /** What the upsert sends: the form's fields, the owner and the mutation
      time. `now` is the clock reading taken at the call. */
  datatype UpsertPayload = UpsertPayload(form: WeddingForm, user_id: Id, updated_at: string)

  /** Fetch of the user's one row. A missing or duplicated row is an error
      answer from the store and leaves the cached value alone. */
  function Fetch(c: InfoCache, user: Option<User>, fetched: Remote<WeddingInfo>): (r: InfoCache)
    ensures user.None? ==> r == c
    ensures user.Some? ==> !r.loading
    ensures user.Some? && fetched.Ok? ==> r.info == Some(fetched.value)
    ensures user.Some? && fetched.Err? ==> r.info == c.info
  {
    if user.None? then c
    else match fetched
      case Ok(row) => InfoCache(Some(row), false)
      case Err => c.(loading := false)
  }

  /** The request issued, if any: none without a user; otherwise the form,
      stamped with the user's id and the supplied time. */
  function Request(user: Option<User>, form: WeddingForm, now: string): (r: Option<UpsertPayload>)
    ensures r.None? <==> user.None?
    ensures r.Some? ==> r.value.user_id == user.value.id && r.value.updated_at == now && r.value.form == form
  {
    if user.None? then None else Some(UpsertPayload(form, user.value.id, now))
  }

  /** Upsert: a no-op without a user; the returned row replaces the cached
      one on success; an error changes nothing. `loading` is never touched. */
  function Upsert(c: InfoCache, user: Option<User>, answer: Remote<WeddingInfo>): (r: InfoCache)
    ensures r.loading == c.loading
    ensures user.None? || answer.Err? ==> r == c
    ensures user.Some? && answer.Ok? ==> r.info == Some(answer.value)
  {
    if user.None? then c
    else match answer
      case Ok(row) => c.(info := Some(row))
      case Err => c
  }

  /** The store answers with the row it wrote: the payload's fields and
      owner, under some id and creation time of its own. */
  predicate Echoes(row: WeddingInfo, p: UpsertPayload)
  {
    && row.couple_names == p.form.couple_names
    && row.wedding_date == p.form.wedding_date
    && row.venue == p.form.venue
    && row.guest_count == p.form.guest_count
    && row.budget_total == p.form.budget_total
    && row.style == p.form.style
    && row.updated_at == p.updated_at
    && row.user_id == p.user_id
  }

  /** The fields a saved row shows back on the form. */
  function FormOf(row: WeddingInfo): WeddingForm
  {
    WeddingForm(row.couple_names, row.wedding_date, row.venue, row.guest_count, row.budget_total, row.style)
  }

  /** One save from the dashboard: the form, the clock reading and the answer. */
  datatype Save = Save(form: WeddingForm, now: string, answer: Remote<WeddingInfo>)

  function SaveAll(c: InfoCache, user: Option<User>, saves: seq<Save>): InfoCache
    decreases |saves|
  {
    if |saves| == 0 then c else SaveAll(Upsert(c, user, saves[0].answer), user, saves[1..])
  }

  /** However many saves, the cache holds one row: that of the last
      successful save, owned by the signed-in user and showing that save's
      form, when the store echoes what it is sent. */
  lemma {:induction false} SavesConvergeToLastSuccess(c: InfoCache, u: User, saves: seq<Save>, last: nat)
    requires last < |saves| && saves[last].answer.Ok?
    requires forall i :: last < i < |saves| ==> saves[i].answer.Err?
    requires forall i :: 0 <= i < |saves| && saves[i].answer.Ok? ==>
      var p := Request(Some(u), saves[i].form, saves[i].now);
      Echoes(saves[i].answer.value, p.value)
    ensures SaveAll(c, Some(u), saves).info == Some(saves[last].answer.value)
    ensures SaveAll(c, Some(u), saves).info.value.user_id == u.id
    ensures FormOf(SaveAll(c, Some(u), saves).info.value) == saves[last].form
    ensures SaveAll(c, Some(u), saves).info.value.updated_at == saves[last].now
    decreases |saves|
  {
    var next := Upsert(c, Some(u), saves[0].answer);
    if last == 0 {
      FailedSavesKeepInfo(next, Some(u), saves[1..]);
    } else {
      SavesConvergeToLastSuccess(next, u, saves[1..], last - 1);
    }
  }

  /** Failed saves leave the cached row as it was. */
  lemma {:induction false} FailedSavesKeepInfo(c: InfoCache, user: Option<User>, saves: seq<Save>)
    requires forall i :: 0 <= i < |saves| ==> saves[i].answer.Err?
    ensures SaveAll(c, user, saves) == c
    decreases |saves|
  {
    if |saves| > 0 {
      FailedSavesKeepInfo(c, user, saves[1..]);
    }
  }

  /** Without a user no save changes anything. */
  lemma {:induction false} SignedOutSavesDoNothing(c: InfoCache, saves: seq<Save>)
    ensures SaveAll(c, None, saves) == c
    decreases |saves|
  {
    if |saves| > 0 {
      SignedOutSavesDoNothing(c, saves[1..]);
    }
  }
}
