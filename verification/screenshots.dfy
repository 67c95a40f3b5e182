/** The `useProjectScreenshots` hook: the local list of a project's
    screenshots and how each backend reply changes it. */
module Screenshots {
  import opened Common
  import opened Lists

  datatype Screenshot = Screenshot(
    id: string,
    projectId: string,
    imageUrl: string,
    caption: Option<string>,
    displayOrder: int,
    createdAt: string)

  /** The row an add asks the backend to insert. */
  datatype NewScreenshot = NewScreenshot(
    projectId: string,
    imageUrl: string,
    caption: Option<string>,
    displayOrder: int)

  datatype ScreenshotsState = ScreenshotsState(screenshots: seq<Screenshot>, loading: bool)

  const InitialState: ScreenshotsState := ScreenshotsState([], true)

  /** `Math.max(...screenshots.map(s => s.display_order))`. */
  function MaxOrder(ss: seq<Screenshot>): (r: int)
    requires |ss| > 0
    ensures forall i :: 0 <= i < |ss| ==> ss[i].displayOrder <= r
    ensures exists i :: 0 <= i < |ss| && ss[i].displayOrder == r
  {
    if |ss| == 1 then ss[0].displayOrder
    else
      var m := MaxOrder(ss[1..]);
      assert forall i :: 1 <= i < |ss| ==> ss[i] == ss[1..][i - 1];
      if ss[0].displayOrder > m then ss[0].displayOrder else m
  }

  /** The display order of a new screenshot: one above the largest, and 0
      for the first. */
  function NextDisplayOrder(ss: seq<Screenshot>): (r: int)
    ensures |ss| == 0 ==> r == 0
    ensures forall i :: 0 <= i < |ss| ==> ss[i].displayOrder < r
    ensures |ss| > 0 ==> exists i :: 0 <= i < |ss| && ss[i].displayOrder == r - 1
  {
    var maxOrder := if |ss| > 0 then MaxOrder(ss) else -1;
    maxOrder + 1
  }

  /** The row `addScreenshot` inserts. */
  function InsertRow(ss: seq<Screenshot>, projectId: string, imageUrl: string, caption: Option<string>): NewScreenshot
  {
    NewScreenshot(projectId, imageUrl, caption, NextDisplayOrder(ss))
  }

  /** `fetchScreenshots`: without a project id only loading ends; otherwise
      the reply's rows (none when it carries no data) replace the list, and a
      failed fetch keeps the list. */
  function FetchScreenshots(st: ScreenshotsState, projectId: Option<string>,
                            reply: Result<Option<seq<Screenshot>>>): (r: ScreenshotsState)
    ensures !r.loading
    ensures projectId.None? || projectId == Some("") || reply.Err? ==> r.screenshots == st.screenshots
    ensures projectId.Some? && projectId.value != "" && reply.Ok? ==>
      r.screenshots == (if reply.value.Some? then reply.value.value else [])
  {
    if projectId.None? || projectId.value == "" then st.(loading := false)
    else match reply
      case Ok(data) => ScreenshotsState(if data.Some? then data.value else [], false)
      case Err(_) => st.(loading := false)
  }

  /** `addScreenshot`: throws for a signed-out user; otherwise appends the
      record the backend returns, or rethrows its error. */
  function AddScreenshot(st: ScreenshotsState, user: Option<User>, reply: Result<Screenshot>): (r: Outcome<ScreenshotsState, Screenshot>)
    ensures user.None? ==> r == Outcome(st, Err(NotAuthenticated))
    ensures r.result.Err? ==> r.state == st
    ensures r.result.Ok? <==> user.Some? && reply.Ok?
    ensures user.Some? ==> r.result == reply
    ensures r.result.Ok? ==> r.state == st.(screenshots := st.screenshots + [reply.value])
  {
    if user.None? then Outcome(st, Err(NotAuthenticated))
    else match reply
      case Ok(s) => Outcome(st.(screenshots := st.screenshots + [s]), Ok(s))
      case Err(e) => Outcome(st, Err(e))
  }

  /** `deleteScreenshot`: on success drops every screenshot with `id`. */
  function DeleteScreenshot(st: ScreenshotsState, id: string, reply: Result<()>): (r: Outcome<ScreenshotsState, ()>)
    ensures r.result == reply
    ensures reply.Err? ==> r.state == st
    ensures reply.Ok? ==> r.state.loading == st.loading
    ensures reply.Ok? ==> forall i :: 0 <= i < |r.state.screenshots| ==>
      r.state.screenshots[i].id != id && r.state.screenshots[i] in st.screenshots
    ensures reply.Ok? ==> forall i :: 0 <= i < |st.screenshots| && st.screenshots[i].id != id ==>
      st.screenshots[i] in r.state.screenshots
    ensures reply.Ok? ==> IsSubsequence(r.state.screenshots, st.screenshots)
    ensures reply.Ok? ==> |r.state.screenshots| == Count(st.screenshots, (s: Screenshot) => s.id != id)
  {
    FilterIsSubsequence(st.screenshots, (s: Screenshot) => s.id != id);
    FilterLength(st.screenshots, (s: Screenshot) => s.id != id);
    match reply
    case Ok(_) => Outcome(st.(screenshots := Filter(st.screenshots, (s: Screenshot) => s.id != id)), reply)
    case Err(_) => Outcome(st, reply)
  }

  /** `updateScreenshotCaption`: on success the returned record replaces
      every screenshot with `id`. */
  function UpdateScreenshotCaption(st: ScreenshotsState, id: string, reply: Result<Screenshot>): (r: Outcome<ScreenshotsState, Screenshot>)
    ensures r.result == reply
    ensures reply.Err? ==> r.state == st
    ensures reply.Ok? ==> r.state.loading == st.loading && |r.state.screenshots| == |st.screenshots|
    ensures reply.Ok? ==> forall i :: 0 <= i < |st.screenshots| ==>
      r.state.screenshots[i] == (if st.screenshots[i].id == id then reply.value else st.screenshots[i])
  {
    match reply
    case Ok(s) => Outcome(st.(screenshots := ReplaceWhere(st.screenshots, (x: Screenshot) => x.id == id, s)), reply)
    case Err(_) => Outcome(st, reply)
  }

  /** Display orders increase along the list. */
  predicate OrdersIncrease(ss: seq<Screenshot>)
  {
    forall i, j :: 0 <= i < j < |ss| ==> ss[i].displayOrder < ss[j].displayOrder
  }

  // ---------------------------------------------------------------------
  // Lemmas

  /** When the backend stores the requested display order, an add keeps the
      orders increasing (and therefore distinct). */
  lemma AddKeepsOrdersIncreasing(st: ScreenshotsState, user: Option<User>, projectId: string,
                                 imageUrl: string, caption: Option<string>, reply: Result<Screenshot>)
    requires OrdersIncrease(st.screenshots)
    requires reply.Ok? ==> reply.value.displayOrder == InsertRow(st.screenshots, projectId, imageUrl, caption).displayOrder
    ensures OrdersIncrease(AddScreenshot(st, user, reply).state.screenshots)
  {
  }

  /** The tail of an increasing list is increasing and lies above its head. */
  lemma IncreasingTail(ss: seq<Screenshot>)
    requires |ss| > 0 && OrdersIncrease(ss)
    ensures OrdersIncrease(ss[1..])
    ensures forall x :: x in ss[1..] ==> ss[0].displayOrder < x.displayOrder
  {
    assert forall k :: 0 <= k < |ss| - 1 ==> ss[1..][k] == ss[k + 1];
  }

  /** Putting an entry below all others in front keeps a list increasing. */
  lemma IncreasingCons(x: Screenshot, rest: seq<Screenshot>)
    requires OrdersIncrease(rest)
    requires forall j :: 0 <= j < |rest| ==> x.displayOrder < rest[j].displayOrder
    ensures OrdersIncrease([x] + rest)
  {
    var l := [x] + rest;
    assert forall k :: 1 <= k < |l| ==> l[k] == rest[k - 1];
  }

  /** A filter of a list whose display orders increase keeps them
      increasing: it never reorders what it keeps. */
  lemma {:induction false} FilterKeepsOrdersIncreasing(ss: seq<Screenshot>, keep: Screenshot -> bool)
    requires OrdersIncrease(ss)
    ensures OrdersIncrease(Filter(ss, keep))
  {
    if |ss| > 0 {
      IncreasingTail(ss);
      FilterKeepsOrdersIncreasing(ss[1..], keep);
      if keep(ss[0]) {
        var rest := Filter(ss[1..], keep);
        assert forall j :: 0 <= j < |rest| ==> rest[j] in ss[1..];
        IncreasingCons(ss[0], rest);
      }
    }
  }

  /** A delete keeps display orders increasing along the list. */
  lemma DeleteKeepsOrdersIncreasing(st: ScreenshotsState, id: string, reply: Result<()>)
    requires OrdersIncrease(st.screenshots)
    ensures OrdersIncrease(DeleteScreenshot(st, id, reply).state.screenshots)
  {
    FilterKeepsOrdersIncreasing(st.screenshots, (s: Screenshot) => s.id != id);
  }

  /** A successful fetch forgets the local list: the rows it brings do not
      depend on what was shown before, fetching again changes nothing, and a
      later add appends after the fetched rows. */
  lemma FetchReplacesList(st1: ScreenshotsState, st2: ScreenshotsState, projectId: string,
                          rows: seq<Screenshot>, user: User, s: Screenshot)
    requires projectId != ""
    ensures var fetched := FetchScreenshots(st1, Some(projectId), Ok(Some(rows)));
      && fetched == FetchScreenshots(st2, Some(projectId), Ok(Some(rows)))
      && FetchScreenshots(fetched, Some(projectId), Ok(Some(rows))) == fetched
      && AddScreenshot(fetched, Some(user), Ok(s)).state.screenshots == rows + [s]
  {
  }

  /** Deleting a just-added screenshot (whose id was new) restores the list. */
  lemma AddThenDelete(st: ScreenshotsState, user: User, s: Screenshot)
    requires forall i :: 0 <= i < |st.screenshots| ==> st.screenshots[i].id != s.id
    ensures DeleteScreenshot(AddScreenshot(st, Some(user), Ok(s)).state, s.id, Ok(())).state == st
  {
    var keep := (x: Screenshot) => x.id != s.id;
    FilterAppendRejected(st.screenshots, s, keep);
    FilterKeepsAll(st.screenshots, keep);
  }

  /** A caption update that returns the same id changes no id in the list,
      so deleting afterwards removes the same entries as deleting before. */
  lemma UpdateKeepsIds(st: ScreenshotsState, id: string, s: Screenshot)
    requires s.id == id
    ensures var after := UpdateScreenshotCaption(st, id, Ok(s)).state.screenshots;
      forall i :: 0 <= i < |after| ==> after[i].id == st.screenshots[i].id
  {
  }
}
