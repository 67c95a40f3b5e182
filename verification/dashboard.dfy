/** The admin dashboard page: a hard-coded credential check, the local
    project list with upload and delete, and the figures shown above and
    inside the projects table. */
module Dashboard {
  import opened Common
  import opened Lists
  import opened Projects
  import ProjectForm

  datatype DashboardState = DashboardState(
    isAuthenticated: bool,
    showUploadForm: bool,
    projects: seq<Project>)

  /** The page as first rendered: signed out, form closed, fixture projects. */
  const InitialState: DashboardState := DashboardState(false, false, MockProjects)

  /** The only accepted credentials. */
  const AdminUsername: string := "admin"
  const AdminPassword: string := "password123"

  datatype LoginResult = LoginResult(accepted: bool, state: DashboardState)

  /** `handleLogin`: accepts the fixed credentials and only then signs in. */
  function HandleLogin(st: DashboardState, username: string, password: string): (r: LoginResult)
    ensures r.accepted <==> username == AdminUsername && password == AdminPassword
    ensures r.accepted ==> r.state == st.(isAuthenticated := true)
    ensures !r.accepted ==> r.state == st
  {
    if username == AdminUsername && password == AdminPassword then
      LoginResult(true, st.(isAuthenticated := true))
    else
      LoginResult(false, st)
  }

  /** `handleLogout`. */
  function HandleLogout(st: DashboardState): (r: DashboardState)
    ensures !r.isAuthenticated && r.(isAuthenticated := st.isAuthenticated) == st
  {
    st.(isAuthenticated := false)
  }

  /** The project built from submitted form data and an id. */
  function ProjectOf(data: ProjectForm.FormData, id: int): Project
  {
    Project(id, data.title, data.description, data.techStack,
      data.imageUrl, data.downloadLink, Some(data.liveLink))
  }

  /** `handleProjectUpload`: append with id `length + 1` and close the form. */
  function HandleProjectUpload(st: DashboardState, data: ProjectForm.FormData): (r: DashboardState)
    ensures |r.projects| == |st.projects| + 1
    ensures r.projects[..|st.projects|] == st.projects
    ensures r.projects[|st.projects|] == ProjectOf(data, |st.projects| + 1)
    ensures !r.showUploadForm && r.isAuthenticated == st.isAuthenticated
  {
    var created := ProjectOf(data, |st.projects| + 1);
    st.(projects := st.projects + [created], showUploadForm := false)
  }

  /** `handleDeleteProject`: drop every project carrying `id`. */
  function HandleDeleteProject(st: DashboardState, id: int): (r: DashboardState)
    ensures forall i :: 0 <= i < |r.projects| ==> r.projects[i].id != id && r.projects[i] in st.projects
    ensures forall i :: 0 <= i < |st.projects| && st.projects[i].id != id ==> st.projects[i] in r.projects
    ensures IsSubsequence(r.projects, st.projects)
    ensures |r.projects| == Count(st.projects, (p: Project) => p.id != id)
    ensures r.(projects := st.projects) == st
  {
    FilterIsSubsequence(st.projects, (p: Project) => p.id != id);
    FilterLength(st.projects, (p: Project) => p.id != id);
    st.(projects := Filter(st.projects, (p: Project) => p.id != id))
  }

  /** All tech entries of all projects, in order (`flatMap`). */
  function AllTech(ps: seq<Project>): seq<string>
  {
    if |ps| == 0 then [] else ps[0].techStack + AllTech(ps[1..])
  }

  /** The "Technologies Used" figure: distinct tech strings. */
  function TechnologiesUsed(ps: seq<Project>): nat
  {
    |set t | t in AllTech(ps)|
  }

  /** What a row's tech cell shows: the first three entries and, when there
      are more, a `+n` badge. */
  datatype TechCell = TechCell(badges: seq<string>, more: Option<nat>)

  function TechCellOf(techStack: seq<string>): (r: TechCell)
    ensures |r.badges| == if |techStack| > 3 then 3 else |techStack|
    ensures r.more.Some? <==> |techStack| > 3
    ensures r.badges == techStack[..|r.badges|]
    ensures |r.badges| + (if r.more.Some? then r.more.value else 0) == |techStack|
  {
    if |techStack| > 3 then TechCell(techStack[..3], Some(|techStack| - 3))
    else TechCell(techStack, None)
  }

  /** Ids are unique. */
  predicate UniqueIds(ps: seq<Project>)
  {
    forall i, j :: 0 <= i < |ps| && 0 <= j < |ps| && ps[i].id == ps[j].id ==> i == j
  }

  // ---------------------------------------------------------------------
  // Lemmas

  /** Signing in and out: a failed login never authenticates, logout always
      signs out, and the project list is never touched. */
  lemma LoginLogoutKeepProjects(st: DashboardState, username: string, password: string)
    requires !st.isAuthenticated
    ensures HandleLogin(st, username, password).state.isAuthenticated <==>
      username == "admin" && password == "password123"
    ensures HandleLogin(st, username, password).state.projects == st.projects
    ensures HandleLogout(HandleLogin(st, username, password).state) == st
  {
  }

  /** Uploading and then deleting the new id gives back the list when the
      new id was not in use. */
  lemma UploadThenDelete(st: DashboardState, data: ProjectForm.FormData)
    requires forall i :: 0 <= i < |st.projects| ==> st.projects[i].id != |st.projects| + 1
    ensures HandleDeleteProject(HandleProjectUpload(st, data), |st.projects| + 1).projects == st.projects
  {
    var keep := (p: Project) => p.id != |st.projects| + 1;
    FilterAppendRejected(st.projects, ProjectOf(data, |st.projects| + 1), keep);
    FilterKeepsAll(st.projects, keep);
  }

  /** Ids are not kept unique: with unique ids where the last project has
      id `n` (the list's length), deleting any other project and then
      uploading hands out id `n` a second time. */
  lemma IdReuseAfterDelete(st: DashboardState, id: int, data: ProjectForm.FormData)
    requires UniqueIds(st.projects)
    requires |st.projects| >= 2 && st.projects[|st.projects| - 1].id == |st.projects|
    requires id != |st.projects| && exists k :: 0 <= k < |st.projects| && st.projects[k].id == id
    ensures var after := HandleProjectUpload(HandleDeleteProject(st, id), data).projects;
      !UniqueIds(after) && after[|after| - 1].id == st.projects[|st.projects| - 1].id
  {
    var ps := st.projects;
    var hit := (p: Project) => p.id == id;
    var k :| 0 <= k < |ps| && ps[k].id == id;
    OnlyOneWithId(ps, id, k);
    RemoveOneMatch(ps, hit, (p: Project) => p.id != id);
    var deleted := HandleDeleteProject(st, id).projects;
    assert |deleted| == |ps| - 1;
    assert ps[|ps| - 1] in deleted;
    var j :| 0 <= j < |deleted| && deleted[j] == ps[|ps| - 1];
    var after := HandleProjectUpload(HandleDeleteProject(st, id), data).projects;
    assert after[j] == ps[|ps| - 1];
    assert after[|after| - 1].id == |ps|;
  }

  /** Under unique ids exactly one project carries an id that occurs. */
  lemma {:induction false} OnlyOneWithId(ps: seq<Project>, id: int, k: int)
    requires UniqueIds(ps) && 0 <= k < |ps| && ps[k].id == id
    ensures Count(ps, (p: Project) => p.id == id) == 1
  {
    var hit := (p: Project) => p.id == id;
    if k == 0 {
      NoneWithId(ps[1..], id);
    } else {
      assert ps[0].id != id;
      OnlyOneWithId(ps[1..], id, k - 1);
    }
  }

  /** An id that occurs nowhere is counted zero times. */
  lemma {:induction false} NoneWithId(ps: seq<Project>, id: int)
    requires forall i :: 0 <= i < |ps| ==> ps[i].id != id
    ensures Count(ps, (p: Project) => p.id == id) == 0
  {
    if |ps| > 0 {
      NoneWithId(ps[1..], id);
    }
  }

  /** Distinct technologies never outnumber tech entries. */
  lemma {:induction false} TechnologiesUsedBounded(ps: seq<Project>)
    ensures TechnologiesUsed(ps) <= |AllTech(ps)|
  {
    DistinctBounded(AllTech(ps));
  }

  /** A sequence has at most as many distinct values as entries. */
  lemma {:induction false} DistinctBounded(xs: seq<string>)
    ensures |set t | t in xs| <= |xs|
  {
    if |xs| > 0 {
      DistinctBounded(xs[1..]);
      assert (set t | t in xs) == (set t | t in xs[1..]) + {xs[0]};
    }
  }

  /** Reading the cell back: the badges and the `+n` count cover the stack. */
  lemma TechCellCoversStack(techStack: seq<string>)
    ensures var c := TechCellOf(techStack);
      c.more.Some? ==> techStack == c.badges + techStack[3..] && c.more.value == |techStack[3..]|
  {
  }
}
