/** The `useExperiences` hook: a user's work-experience entries. */
module Experiences {
  import opened Common
  import opened OwnedRecords

  datatype Experience = Experience(
    id: string,
    userId: string,
    company: string,
    title: string,
    startDate: string,
    endDate: string,
    description: Option<string>,
    createdAt: string)

  function IdOf(e: Experience): string { e.id }

  const InitialState: ListState<Experience> := ListState([], true)

  /** `fetchExperiences`. */
  function FetchExperiences(st: ListState<Experience>, userId: Option<string>, user: Option<User>,
                            reply: Result<Option<seq<Experience>>>): (r: FetchOutcome<Experience>)
    ensures !r.state.loading
    ensures userId.Some? && userId.value != "" ==> r.queried == userId
    ensures (userId.None? || userId.value == "") && user.Some? && user.value.id != "" ==> r.queried == Some(user.value.id)
    ensures r.queried.None? <==> (userId.None? || userId.value == "") && (user.None? || user.value.id == "")
    ensures r.queried.None? ==> r.state.items == []
    ensures r.queried.Some? && reply.Err? ==> r.state.items == st.items
    ensures r.queried.Some? && reply.Ok? ==>
      r.state.items == (if reply.value.Some? then reply.value.value else [])
  {
    Fetch(st, userId, user, reply)
  }

  /** `addExperience`: prepend the stored record. */
  function AddExperience(st: ListState<Experience>, user: Option<User>, reply: Result<Experience>): (r: Outcome<ListState<Experience>, Experience>)
    ensures user.None? ==> r.result == Err(NotAuthenticated) && r.state == st
    ensures reply.Err? ==> r.state == st && r.result.Err?
    ensures user.Some? ==> r.result == reply
    ensures user.Some? && reply.Ok? ==> r.state.items == [reply.value] + st.items && r.result == reply
  {
    Add(st, user, reply)
  }

  /** `updateExperience`. */
  function UpdateExperience(st: ListState<Experience>, id: string, reply: Result<Experience>): (r: Outcome<ListState<Experience>, Experience>)
    ensures reply.Err? ==> r.state == st
    ensures reply.Ok? ==> |r.state.items| == |st.items|
    ensures reply.Ok? ==> forall i :: 0 <= i < |st.items| ==>
      r.state.items[i] == (if st.items[i].id == id then reply.value else st.items[i])
  {
    Update(st, IdOf, id, reply)
  }

  /** `deleteExperience`. */
  function DeleteExperience(st: ListState<Experience>, id: string, reply: Result<()>): (r: Outcome<ListState<Experience>, ()>)
    ensures reply.Err? ==> r.state == st
    ensures reply.Ok? ==> forall i :: 0 <= i < |r.state.items| ==>
      r.state.items[i].id != id && r.state.items[i] in st.items
    ensures reply.Ok? ==> forall i :: 0 <= i < |st.items| && st.items[i].id != id ==>
      st.items[i] in r.state.items
    ensures reply.Ok? ==> Lists.IsSubsequence(r.state.items, st.items)
    ensures reply.Ok? ==> |r.state.items| == Lists.Count(st.items, KeepOthers(IdOf, id))
  {
    Delete(st, IdOf, id, reply)
  }
}
