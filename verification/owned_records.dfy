/** The list-keeping logic shared by the experience and education hooks:
    whose records to fetch, and how each backend reply changes the local
    list (add prepends, update replaces by id, delete filters by id). */
module OwnedRecords {
  import opened Common
  import opened Lists

  datatype ListState<T> = ListState(items: seq<T>, loading: bool)

  /** `userId || user?.id`: an explicit, non-empty id wins; an empty string
      counts as absent. */
  function FetchOwnerId(userId: Option<string>, user: Option<User>): (r: Option<string>)
    ensures r.Some? ==> r.value != ""
    ensures userId.Some? && userId.value != "" ==> r == userId
    ensures (userId.None? || userId.value == "") && user.Some? && user.value.id != "" ==> r == Some(user.value.id)
    ensures r.None? <==> (userId.None? || userId.value == "") && (user.None? || user.value.id == "")
  {
    if userId.Some? && userId.value != "" then userId
    else if user.Some? && user.value.id != "" then Some(user.value.id)
    else None
  }

  /** What a fetch leaves behind: the list, and whose records were queried
      (`None` when no query was sent). */
  datatype FetchOutcome<T> = FetchOutcome(state: ListState<T>, queried: Option<string>)

  /** A fetch: no owner empties the list without a query; otherwise the
      owner's rows are queried, the rows that arrive (none when the reply has
      no data) replace the list, and a failed fetch keeps it. */
  function Fetch<T>(st: ListState<T>, userId: Option<string>, user: Option<User>,
                    reply: Result<Option<seq<T>>>): (r: FetchOutcome<T>)
    ensures !r.state.loading
    ensures userId.Some? && userId.value != "" ==> r.queried == userId
    ensures (userId.None? || userId.value == "") && user.Some? && user.value.id != "" ==> r.queried == Some(user.value.id)
    ensures r.queried.None? <==> (userId.None? || userId.value == "") && (user.None? || user.value.id == "")
    ensures r.queried.None? ==> r.state.items == []
    ensures r.queried.Some? && reply.Err? ==> r.state.items == st.items
    ensures r.queried.Some? && reply.Ok? ==>
      r.state.items == (if reply.value.Some? then reply.value.value else [])
  {
    var owner := FetchOwnerId(userId, user);
    if owner.None? then FetchOutcome(ListState([], false), None)
    else match reply
      case Ok(data) => FetchOutcome(ListState(if data.Some? then data.value else [], false), owner)
      case Err(_) => FetchOutcome(st.(loading := false), owner)
  }

  /** An add: throws for a signed-out user; otherwise the returned record
      goes to the front, or the backend error is rethrown. */
  function Add<T>(st: ListState<T>, user: Option<User>, reply: Result<T>): (r: Outcome<ListState<T>, T>)
    ensures user.None? ==> r == Outcome(st, Err(NotAuthenticated))
    ensures r.result.Err? ==> r.state == st
    ensures r.result.Ok? <==> user.Some? && reply.Ok?
    ensures user.Some? ==> r.result == reply
    ensures r.result.Ok? ==> r.state == st.(items := [reply.value] + st.items)
  {
    if user.None? then Outcome(st, Err(NotAuthenticated))
    else match reply
      case Ok(x) => Outcome(st.(items := [x] + st.items), Ok(x))
      case Err(e) => Outcome(st, Err(e))
  }

  /** An update: on success the returned record replaces every entry whose
      id is `id`. */
  function Update<T>(st: ListState<T>, idOf: T -> string, id: string, reply: Result<T>): (r: Outcome<ListState<T>, T>)
    ensures r.result == reply
    ensures reply.Err? ==> r.state == st
    ensures reply.Ok? ==> r.state.loading == st.loading && |r.state.items| == |st.items|
    ensures reply.Ok? ==> forall i :: 0 <= i < |st.items| ==>
      r.state.items[i] == (if idOf(st.items[i]) == id then reply.value else st.items[i])
  {
    match reply
    case Ok(x) => Outcome(st.(items := ReplaceWhere(st.items, (e: T) => idOf(e) == id, x)), reply)
    case Err(_) => Outcome(st, reply)
  }

  /** The entries a delete of `id` keeps. */
  function KeepOthers<T>(idOf: T -> string, id: string): T -> bool
  {
    (e: T) => idOf(e) != id
  }

  /** A delete: on success every entry whose id is `id` is dropped. */
  function Delete<T(==)>(st: ListState<T>, idOf: T -> string, id: string, reply: Result<()>): (r: Outcome<ListState<T>, ()>)
    ensures r.result == reply
    ensures reply.Err? ==> r.state == st
    ensures reply.Ok? ==> r.state.loading == st.loading
    ensures reply.Ok? ==> forall i :: 0 <= i < |r.state.items| ==>
      idOf(r.state.items[i]) != id && r.state.items[i] in st.items
    ensures reply.Ok? ==> forall i :: 0 <= i < |st.items| && idOf(st.items[i]) != id ==>
      st.items[i] in r.state.items
    ensures reply.Ok? ==> IsSubsequence(r.state.items, st.items)
    ensures reply.Ok? ==> |r.state.items| == Count(st.items, KeepOthers(idOf, id))
  {
    FilterIsSubsequence(st.items, KeepOthers(idOf, id));
    FilterLength(st.items, KeepOthers(idOf, id));
    match reply
    case Ok(_) => Outcome(st.(items := Filter(st.items, KeepOthers(idOf, id))), reply)
    case Err(_) => Outcome(st, reply)
  }

  // ---------------------------------------------------------------------
  // Lemmas

  /** Deleting the id of a just-added record (an id not in use before)
      restores the list. */
  lemma AddThenDelete<T>(st: ListState<T>, user: User, x: T, idOf: T -> string)
    requires forall i :: 0 <= i < |st.items| ==> idOf(st.items[i]) != idOf(x)
    ensures Delete(Add(st, Some(user), Ok(x)).state, idOf, idOf(x), Ok(())).state == st
  {
    FilterKeepsAll(st.items, KeepOthers(idOf, idOf(x)));
  }

  /** A successful fetch forgets the local list: its rows do not depend on
      what was shown before, and a later add puts the new record in front of
      them. */
  lemma FetchThenAdd<T>(st1: ListState<T>, st2: ListState<T>, userId: Option<string>, user: User,
                        rows: seq<T>, x: T)
    requires user.id != ""
    ensures var fetched := Fetch(st1, userId, Some(user), Ok(Some(rows)));
      && fetched == Fetch(st2, userId, Some(user), Ok(Some(rows)))
      && Add(fetched.state, Some(user), Ok(x)).state.items == [x] + rows
  {
  }

  /** An update whose reply keeps the id leaves the set of ids alone, so a
      later delete of that id removes the same positions. */
  lemma UpdateKeepsIds<T>(st: ListState<T>, idOf: T -> string, id: string, x: T)
    requires idOf(x) == id
    ensures var after := Update(st, idOf, id, Ok(x)).state.items;
      forall i :: 0 <= i < |after| ==> idOf(after[i]) == idOf(st.items[i])
  {
  }
}
