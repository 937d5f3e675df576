/** The cache every data hook keeps of one remote table, written once over a
    generic row type. A hook is a `Config`: how to read a row's id, how to
    merge a partial update into a row, and where an inserted row goes. Every
    operation is a pure transition taking the cache, the signed-in user and
    the remote store's answer to the cache after the answer is applied. */
module Store {
  import opened Wrappers
  import opened Records
  import opened Auth
  import Sorting

  /** Where a freshly inserted row is placed: at the front (newest first),
      or by appending and re-sorting ascending on an integer sort key. */
  datatype AddPolicy<!T> = Prepend | SortedBy(key: T -> int)

  datatype Config<!T, !P> = Config(idOf: T -> Id, merge: (T, P) -> T, policy: AddPolicy<T>)

  /** The hook's state: the cached rows and its `loading` flag. */
  datatype Cache<T> = Cache(rows: seq<T>, loading: bool)

  /** A hook's state on mount: no rows, loading. */
  function Mounted<T>(): Cache<T>
  {
    Cache([], true)
  }

  /** The refetch run on mount and whenever the user changes. With no user it
      returns before any call, leaving even `loading` as it was. */
  function Fetch<T>(c: Cache<T>, user: Option<User>, fetched: Remote<seq<T>>): (r: Cache<T>)
    ensures user.None? ==> r == c
    ensures user.Some? ==> !r.loading
    ensures user.Some? && fetched.Ok? ==> r.rows == fetched.value
    ensures user.Some? && fetched.Err? ==> r.rows == c.rows
  {
    if user.None? then c
    else match fetched
      case Ok(rows) => Cache(rows, false)
      case Err => c.(loading := false)
  }

  /** A mounted hook shows no rows and stays loading until a user is known:
      a fetch run while signed out leaves it as it was. */
  lemma MountedWaitsForUser<T>(fetched: Remote<seq<T>>)
    ensures Mounted<T>().rows == [] && Mounted<T>().loading
    ensures Fetch(Mounted<T>(), None, fetched) == Mounted<T>()
  {
  }

  /** Where the inserted row lands in the cached rows. */
  function Place<T>(policy: AddPolicy<T>, rows: seq<T>, row: T): (r: seq<T>)
    ensures |r| == |rows| + 1
    ensures multiset(r) == multiset(rows) + multiset{row}
    ensures policy.Prepend? ==> r[0] == row && r[1..] == rows
    ensures policy.SortedBy? ==> Sorting.Sorted(policy.key, r)
    ensures policy.SortedBy? ==>
      forall v :: Sorting.WithKey(policy.key, v, r) == Sorting.WithKey(policy.key, v, rows + [row])
  {
    match policy
    case Prepend => [row] + rows
    case SortedBy(key) =>
      assert multiset(rows + [row]) == multiset(rows) + multiset{row};
      Sorting.Sort(key, rows + [row])
  }

  /** Insert a row: nothing happens without a user; on success the first
      returned row joins the cache per the policy; on error nothing changes. */
  function Add<T, P>(cfg: Config<T, P>, c: Cache<T>, user: Option<User>, inserted: Remote<seq<T>>): (r: Cache<T>)
    requires inserted.Ok? ==> |inserted.value| > 0
    ensures r.loading == c.loading
    ensures user.None? || inserted.Err? ==> r == c
    ensures user.Some? && inserted.Ok? ==>
      && |r.rows| == |c.rows| + 1
      && multiset(r.rows) == multiset(c.rows) + multiset{inserted.value[0]}
    ensures user.Some? && inserted.Ok? && cfg.policy.Prepend? ==>
      r.rows[0] == inserted.value[0] && r.rows[1..] == c.rows
    ensures user.Some? && inserted.Ok? && cfg.policy.SortedBy? ==>
      Sorting.Sorted(cfg.policy.key, r.rows)
    ensures user.Some? && inserted.Ok? && cfg.policy.SortedBy? ==>
      forall v :: Sorting.WithKey(cfg.policy.key, v, r.rows) == Sorting.WithKey(cfg.policy.key, v, c.rows + [inserted.value[0]])
  {
    if user.None? then c
    else match inserted
      case Ok(rows) => c.(rows := Place(cfg.policy, c.rows, rows[0]))
      case Err => c
  }

  /** With the sorted policy and rows already in order, the inserted row
      lands after every row whose key is no larger and before the first row
      with a larger key; the other rows keep their order. */
  lemma SortedAddInserts<T, P>(cfg: Config<T, P>, c: Cache<T>, row: T, more: seq<T>, u: User)
    requires cfg.policy.SortedBy? && Sorting.Sorted(cfg.policy.key, c.rows)
    ensures
      var key := cfg.policy.key;
      var k := Sorting.FirstAbove(key, c.rows, row);
      && Add(cfg, c, Some(u), Ok([row] + more)).rows == c.rows[..k] + [row] + c.rows[k..]
      && (forall i :: 0 <= i < k ==> key(c.rows[i]) <= key(row))
      && (forall i :: k <= i < |c.rows| ==> key(row) < key(c.rows[i]))
  {
    var key := cfg.policy.key;
    assert Add(cfg, c, Some(u), Ok([row] + more)).rows == Sorting.Sort(key, c.rows + [row]) by {
      assert Add(cfg, c, Some(u), Ok([row] + more)).rows == Place(cfg.policy, c.rows, row);
    }
    Sorting.AppendThenSortIsInsert(key, c.rows, row);
    Sorting.FirstAboveSplits(key, c.rows, row);
  }

  /** What an insert sends: the draft's fields, stamped with the owner. */
  datatype InsertPayload<D> = InsertPayload(fields: D, user_id: Id)

  /** `{ ...draft, user_id: user.id }`: no request without a user; otherwise
      the draft unchanged, owned by the signed-in user. */
  function InsertRequest<D>(user: Option<User>, draft: D): (r: Option<InsertPayload<D>>)
    ensures r.None? <==> user.None?
    ensures r.Some? ==> r.value.user_id == user.value.id && r.value.fields == draft
  {
    if user.None? then None else Some(InsertPayload(draft, user.value.id))
  }

  /** Every cached row belongs to the user with id `uid`. */
  predicate OwnedBy<T>(ownerOf: T -> Id, rows: seq<T>, uid: Id)
  {
    forall i :: 0 <= i < |rows| ==> ownerOf(rows[i]) == uid
  }

  /** A cache holding only the user's rows still does after an add whose
      returned row carries the owner the request stamped on it. */
  lemma AddKeepsOwnership<T, P>(cfg: Config<T, P>, ownerOf: T -> Id, c: Cache<T>, u: User, row: T, more: seq<T>)
    requires OwnedBy(ownerOf, c.rows, u.id) && ownerOf(row) == u.id
    ensures OwnedBy(ownerOf, Add(cfg, c, Some(u), Ok([row] + more)).rows, u.id)
  {
    var r := Add(cfg, c, Some(u), Ok([row] + more)).rows;
    forall i | 0 <= i < |r| ensures ownerOf(r[i]) == u.id {
      assert r[i] in multiset(r);
      if r[i] != row {
        assert r[i] in multiset(c.rows);
        var j :| 0 <= j < |c.rows| && c.rows[j] == r[i];
      }
    }
  }

  /** `rows.map(x => idOf(x) === id ? { ...x, ...patch } : x)` */
  function UpdateRows<T, P>(idOf: T -> Id, merge: (T, P) -> T, rows: seq<T>, id: Id, patch: P): (r: seq<T>)
    ensures |r| == |rows|
    ensures forall i :: 0 <= i < |rows| && idOf(rows[i]) == id ==> r[i] == merge(rows[i], patch)
    ensures forall i :: 0 <= i < |rows| && idOf(rows[i]) != id ==> r[i] == rows[i]
  {
    if |rows| == 0 then []
    else
      var head := if idOf(rows[0]) == id then merge(rows[0], patch) else rows[0];
      [head] + UpdateRows(idOf, merge, rows[1..], id, patch)
  }

  /** Update by id. There is no user check: the call is made whoever is
      signed in, and only its acknowledgement matters. */
  function Update<T, P>(cfg: Config<T, P>, c: Cache<T>, id: Id, patch: P, ack: Ack): (r: Cache<T>)
    ensures r.loading == c.loading
    ensures ack.Err? ==> r == c
    ensures |r.rows| == |c.rows|
    ensures ack.Ok? ==> forall i :: 0 <= i < |c.rows| ==>
      r.rows[i] == (if cfg.idOf(c.rows[i]) == id then cfg.merge(c.rows[i], patch) else c.rows[i])
  {
    if ack.Ok? then c.(rows := UpdateRows(cfg.idOf, cfg.merge, c.rows, id, patch)) else c
  }

  /** `rows.filter(x => idOf(x) !== id)` */
  function RemoveRows<T>(idOf: T -> Id, rows: seq<T>, id: Id): (r: seq<T>)
    ensures |r| <= |rows|
    ensures forall i :: 0 <= i < |r| ==> r[i] in rows && idOf(r[i]) != id
    ensures forall i :: 0 <= i < |rows| && idOf(rows[i]) != id ==> rows[i] in r
    ensures (forall i :: 0 <= i < |rows| ==> idOf(rows[i]) != id) ==> r == rows
  {
    if |rows| == 0 then []
    else
      assert rows == [rows[0]] + rows[1..];
      var rest := RemoveRows(idOf, rows[1..], id);
      if idOf(rows[0]) == id then rest else [rows[0]] + rest
  }

  /** Delete by id; like update, not guarded by the user check. */
  function Delete<T, P>(cfg: Config<T, P>, c: Cache<T>, id: Id, ack: Ack): (r: Cache<T>)
    ensures r.loading == c.loading
    ensures ack.Err? ==> r == c
    ensures ack.Ok? ==> forall i :: 0 <= i < |r.rows| ==> cfg.idOf(r.rows[i]) != id
    ensures ack.Ok? ==> forall i :: 0 <= i < |c.rows| && cfg.idOf(c.rows[i]) != id ==> c.rows[i] in r.rows
    ensures ack.Ok? ==> multiset(r.rows) <= multiset(c.rows)
    ensures ack.Ok? ==> forall i :: 0 <= i < |c.rows| ==>
      multiset(r.rows)[c.rows[i]] == if cfg.idOf(c.rows[i]) == id then 0 else multiset(c.rows)[c.rows[i]]
  {
    if ack.Ok? then
      RemoveMultiplicity(cfg.idOf, c.rows, id);
      c.(rows := RemoveRows(cfg.idOf, c.rows, id))
    else c
  }

  /** Every row with another id survives with its full multiplicity, every
      row with this id is gone, and nothing new appears. */
  lemma RemoveMultiplicity<T>(idOf: T -> Id, rows: seq<T>, id: Id)
    ensures multiset(RemoveRows(idOf, rows, id)) <= multiset(rows)
    ensures forall i :: 0 <= i < |rows| ==>
      multiset(RemoveRows(idOf, rows, id))[rows[i]] == if idOf(rows[i]) == id then 0 else multiset(rows)[rows[i]]
  {
    var r := RemoveRows(idOf, rows, id);
    forall x ensures multiset(r)[x] == if idOf(x) == id then 0 else multiset(rows)[x] {
      RemoveCountOf(idOf, rows, id, x);
    }
  }

  /** How many copies of any value survive the removal: none when its id is
      removed, all of them otherwise. */
  lemma {:induction false} RemoveCountOf<T>(idOf: T -> Id, rows: seq<T>, id: Id, x: T)
    ensures multiset(RemoveRows(idOf, rows, id))[x] == if idOf(x) == id then 0 else multiset(rows)[x]
  {
    if |rows| > 0 {
      RemoveCountOf(idOf, rows[1..], id, x);
      assert rows == [rows[0]] + rows[1..];
      assert multiset(rows)[x] == multiset{rows[0]}[x] + multiset(rows[1..])[x];
    }
  }

  /** Removal keeps the surviving rows in their original relative order: it
      distributes over concatenation. */
  lemma {:induction false} RemoveDistributes<T>(idOf: T -> Id, a: seq<T>, b: seq<T>, id: Id)
    ensures RemoveRows(idOf, a + b, id) == RemoveRows(idOf, a, id) + RemoveRows(idOf, b, id)
  {
    if |a| > 0 {
      var head := if idOf(a[0]) == id then [] else [a[0]];
      assert (a + b)[0] == a[0];
      assert (a + b)[1..] == a[1..] + b;
      assert RemoveRows(idOf, a + b, id) == head + RemoveRows(idOf, a[1..] + b, id);
      assert RemoveRows(idOf, a, id) == head + RemoveRows(idOf, a[1..], id);
      RemoveDistributes(idOf, a[1..], b, id);
    } else {
      assert a + b == b;
    }
  }

  /** Deleting the same id twice is deleting it once. */
  lemma RemoveIdempotent<T>(idOf: T -> Id, rows: seq<T>, id: Id)
    ensures RemoveRows(idOf, RemoveRows(idOf, rows, id), id) == RemoveRows(idOf, rows, id)
  {
    var once := RemoveRows(idOf, rows, id);
    assert forall i :: 0 <= i < |once| ==> once[i] in once;
  }

  lemma DeleteIdempotent<T, P>(cfg: Config<T, P>, c: Cache<T>, id: Id, ack1: Ack, ack2: Ack)
    ensures Delete(cfg, Delete(cfg, c, id, ack1), id, ack2) == Delete(cfg, c, id, ack1) || ack1.Err?
  {
    if ack1.Ok? {
      RemoveIdempotent(cfg.idOf, c.rows, id);
    }
  }

  /** Dropping rows from sorted rows leaves them sorted. */
  lemma {:induction false} RemoveKeepsSorted<T>(key: T -> int, idOf: T -> Id, rows: seq<T>, id: Id)
    requires Sorting.Sorted(key, rows)
    ensures Sorting.Sorted(key, RemoveRows(idOf, rows, id))
  {
    if |rows| > 0 {
      assert Sorting.Sorted(key, rows[1..]);
      RemoveKeepsSorted(key, idOf, rows[1..], id);
      var rest := RemoveRows(idOf, rows[1..], id);
      forall i | 0 <= i < |rest| ensures key(rows[0]) <= key(rest[i]) {
        var j :| 0 <= j < |rows[1..]| && rows[1..][j] == rest[i];
        assert rows[j + 1] == rest[i];
      }
      Sorting.SortedCons(key, rows[0], rest);
    }
  }

  /** Updating with a patch that merges idempotently is itself idempotent,
      even when the patch rewrites the id. */
  lemma {:induction false} UpdateIdempotent<T, P>(idOf: T -> Id, merge: (T, P) -> T, rows: seq<T>, id: Id, patch: P)
    requires forall i :: 0 <= i < |rows| ==> merge(merge(rows[i], patch), patch) == merge(rows[i], patch)
    ensures UpdateRows(idOf, merge, UpdateRows(idOf, merge, rows, id, patch), id, patch)
         == UpdateRows(idOf, merge, rows, id, patch)
  {
    var once := UpdateRows(idOf, merge, rows, id, patch);
    var twice := UpdateRows(idOf, merge, once, id, patch);
    forall i | 0 <= i < |rows| ensures twice[i] == once[i] {
      if idOf(rows[i]) == id {
        assert once[i] == merge(rows[i], patch);
      }
    }
  }

  /** A merge that leaves the sort key alone keeps sorted rows sorted. */
  lemma UpdateKeepsSorted<T, P>(key: T -> int, idOf: T -> Id, merge: (T, P) -> T, rows: seq<T>, id: Id, patch: P)
    requires Sorting.Sorted(key, rows)
    requires forall i :: 0 <= i < |rows| ==> key(merge(rows[i], patch)) == key(rows[i])
    ensures Sorting.Sorted(key, UpdateRows(idOf, merge, rows, id, patch))
  {
    var r := UpdateRows(idOf, merge, rows, id, patch);
    assert forall i :: 0 <= i < |rows| ==> key(r[i]) == key(rows[i]);
  }

  /** One answered remote call, as seen by a hook. */
  datatype Event<T, P> =
    | Fetched(fetched: Remote<seq<T>>)
    | Added(inserted: Remote<seq<T>>)
    | Updated(id: Id, patch: P, ack: Ack)
    | Deleted(id: Id, deleteAck: Ack)

  /** A successful insert answers with at least one row. */
  predicate WellFormed<T, P>(e: Event<T, P>)
  {
    e.Added? && e.inserted.Ok? ==> |e.inserted.value| > 0
  }

  predicate Failed<T, P>(e: Event<T, P>)
  {
    match e
    case Fetched(f) => f.Err?
    case Added(i) => i.Err?
    case Updated(_, _, a) => a.Err?
    case Deleted(_, a) => a.Err?
  }

  function Step<T, P>(cfg: Config<T, P>, c: Cache<T>, user: Option<User>, e: Event<T, P>): Cache<T>
    requires WellFormed(e)
  {
    match e
    case Fetched(f) => Fetch(c, user, f)
    case Added(i) => Add(cfg, c, user, i)
    case Updated(id, p, a) => Update(cfg, c, id, p, a)
    case Deleted(id, a) => Delete(cfg, c, id, a)
  }

  function Run<T, P>(cfg: Config<T, P>, c: Cache<T>, user: Option<User>, es: seq<Event<T, P>>): Cache<T>
    requires forall i :: 0 <= i < |es| ==> WellFormed(es[i])
    decreases |es|
  {
    if |es| == 0 then c else Run(cfg, Step(cfg, c, user, es[0]), user, es[1..])
  }

  /** Failed calls never change the cached rows, however many there are. */
  lemma {:induction false} FailedRunKeepsRows<T, P>(cfg: Config<T, P>, c: Cache<T>, user: Option<User>, es: seq<Event<T, P>>)
    requires forall i :: 0 <= i < |es| ==> WellFormed(es[i]) && Failed(es[i])
    ensures Run(cfg, c, user, es).rows == c.rows
    decreases |es|
  {
    if |es| > 0 {
      FailedRunKeepsRows(cfg, Step(cfg, c, user, es[0]), user, es[1..]);
    }
  }

  /** Sign-out: when the user becomes absent the hooks refetch, the fetch
      returns early, and the previous user's rows stay cached. */
  lemma SignOutKeepsRows<T>(c: Cache<T>, fetched: Remote<seq<T>>)
    ensures Fetch(c, None, fetched).rows == c.rows
    ensures Fetch(c, None, fetched).loading == c.loading
  {
  }

  /** What keeps a sorted cache sorted: fetched rows arrive sorted (the store
      orders them), and a successful update does not move any row's key. */
  ghost predicate KeepsOrder<T(!new), P>(key: T -> int, merge: (T, P) -> T, e: Event<T, P>)
  {
    match e
    case Fetched(f) => f.Ok? ==> Sorting.Sorted(key, f.value)
    case Added(_) => true
    case Updated(_, p, a) => a.Ok? ==> forall t :: key(merge(t, p)) == key(t)
    case Deleted(_, _) => true
  }

  /** For the sorted policy, sortedness is an invariant of the hook. */
  lemma {:induction false} SortedRunStaysSorted<T(!new), P>(cfg: Config<T, P>, c: Cache<T>, user: Option<User>, es: seq<Event<T, P>>)
    requires cfg.policy.SortedBy?
    requires Sorting.Sorted(cfg.policy.key, c.rows)
    requires forall i :: 0 <= i < |es| ==> WellFormed(es[i]) && KeepsOrder(cfg.policy.key, cfg.merge, es[i])
    ensures Sorting.Sorted(cfg.policy.key, Run(cfg, c, user, es).rows)
    decreases |es|
  {
    if |es| > 0 {
      var key := cfg.policy.key;
      var next := Step(cfg, c, user, es[0]);
      match es[0] {
        case Fetched(_) =>
        case Added(_) =>
        case Updated(id, p, a) =>
          if a.Ok? {
            UpdateKeepsSorted(key, cfg.idOf, cfg.merge, c.rows, id, p);
          }
        case Deleted(id, a) =>
          if a.Ok? {
            RemoveKeepsSorted(key, cfg.idOf, c.rows, id);
          }
      }
      SortedRunStaysSorted(cfg, next, user, es[1..]);
    }
  }
}
