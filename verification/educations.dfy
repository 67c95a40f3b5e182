/** The `useEducations` hook: a user's education entries. */
module Educations {
  import opened Common
  import opened OwnedRecords

  datatype Education = Education(
    id: string,
    userId: string,
    school: string,
    degree: string,
    field: string,
    startDate: string,
    endDate: string,
    description: Option<string>,
    createdAt: string)

  function IdOf(e: Education): string { e.id }

  const InitialState: ListState<Education> := ListState([], true)

  /** `fetchEducations`. */
  function FetchEducations(st: ListState<Education>, userId: Option<string>, user: Option<User>,
                           reply: Result<Option<seq<Education>>>): (r: FetchOutcome<Education>)
    ensures !r.state.loading
    ensures userId.Some? && userId.value != "" ==> r.queried == userId
    ensures (userId.None? || userId.value == "") && user.Some? && user.value.id != "" ==> r.queried == Some(user.value.id)
    ensures r.queried.None? <==> (userId.None? || userId.value == "") && (user.None? || user.value.id == "")
    ensures r.queried.None? ==> r.state.items == []
    ensures r.queried.Some? && reply.Err? ==> r.state.items == st.items
    ensures r.queried.Some? && reply.Ok? ==>
      r.state.items == (if reply.value.Some? then reply.value.value else [])
  {
    Fetch(st, userId, user, reply)
  }

  /** `addEducation`: prepend the stored record. */
  function AddEducation(st: ListState<Education>, user: Option<User>, reply: Result<Education>): (r: Outcome<ListState<Education>, Education>)
    ensures user.None? ==> r.result == Err(NotAuthenticated) && r.state == st
    ensures reply.Err? ==> r.state == st && r.result.Err?
    ensures user.Some? ==> r.result == reply
    ensures user.Some? && reply.Ok? ==> r.state.items == [reply.value] + st.items && r.result == reply
  {
    Add(st, user, reply)
  }

  /** `updateEducation`. */
  function UpdateEducation(st: ListState<Education>, id: string, reply: Result<Education>): (r: Outcome<ListState<Education>, Education>)
    ensures reply.Err? ==> r.state == st
    ensures reply.Ok? ==> |r.state.items| == |st.items|
    ensures reply.Ok? ==> forall i :: 0 <= i < |st.items| ==>
      r.state.items[i] == (if st.items[i].id == id then reply.value else st.items[i])
  {
    Update(st, IdOf, id, reply)
  }

  /** `deleteEducation`. */
  function DeleteEducation(st: ListState<Education>, id: string, reply: Result<()>): (r: Outcome<ListState<Education>, ()>)
    ensures reply.Err? ==> r.state == st
    ensures reply.Ok? ==> forall i :: 0 <= i < |r.state.items| ==>
      r.state.items[i].id != id && r.state.items[i] in st.items
    ensures reply.Ok? ==> forall i :: 0 <= i < |st.items| && st.items[i].id != id ==>
      st.items[i] in r.state.items
    ensures reply.Ok? ==> Lists.IsSubsequence(r.state.items, st.items)
    ensures reply.Ok? ==> |r.state.items| == Lists.Count(st.items, KeepOthers(IdOf, id))
  {
    Delete(st, IdOf, id, reply)
  }
}
