/**
 The Projects page's state and handlers: the project list, the create form,
 the project picked for edit or delete, the per-project platform count and
 the status-to-badge mapping.
 */
module ProjectsPage {
  import opened Records
  import opened Entities

  /** The create form's fields. */
  datatype ProjectForm = ProjectForm(name: string, description: string, status: string, version: string)

  const InitialForm: ProjectForm := ProjectForm("", "", "pending", "1.0.0")

  /** The statuses the page's status select offers. */
  const KnownStatuses: set<string> := {"active", "pending", "completed"}

  /** The badge kinds a status can be shown with. */
  datatype BadgeStatus = Success | Warning | Error | Info | Default

  /** The project a create adds: the form's fields plus the new id and time stamp. */
  function FromForm(f: ProjectForm, id: nat, createdAt: Timestamp): Project
  {
    Project(id, f.name, f.description, f.status, f.version, createdAt)
  }

  /**
   The number of platforms that belong to project `projectId`: the
   multiplicity of that id among the platforms' project references, and the
   number of platforms a filter by project would drop.
   */
  function PlatformCount(platforms: seq<Platform>, projectId: nat): (n: nat)
    ensures n == multiset(Keys(platforms, PlatformProject))[Some(projectId)]
    ensures n + |FilterOut(platforms, PlatformProject, Some(projectId))| == |platforms|
    ensures n == 0 <==> forall i :: 0 <= i < |platforms| ==> platforms[i].projectId != Some(projectId)
  {
    var n := CountMatching(platforms, PlatformProject, Some(projectId));
    assert n == 0 <==> forall i :: 0 <= i < |platforms| ==> platforms[i].projectId != Some(projectId) by {
      var ks := Keys(platforms, PlatformProject);
      if n == 0 {
        forall i | 0 <= i < |platforms| ensures platforms[i].projectId != Some(projectId) {
          assert ks[i] in multiset(ks);
        }
      } else {
        assert Some(projectId) in multiset(ks);
        var i :| 0 <= i < |ks| && ks[i] == Some(projectId);
        assert platforms[i].projectId == Some(projectId);
      }
    }
    n
  }

  /** Counting distributes over concatenation of platform lists. */
  lemma {:induction false} PlatformCountAppend(a: seq<Platform>, b: seq<Platform>, projectId: nat)
    ensures PlatformCount(a + b, projectId) == PlatformCount(a, projectId) + PlatformCount(b, projectId)
  {
    KeysAppend(a, b, PlatformProject);
  }

  /** `getStatusColor`: active, pending and completed get their own badge, any other string the default one. */
  function StatusColor(status: string): (badge: BadgeStatus)
    ensures status == "active" ==> badge == Success
    ensures status == "pending" ==> badge == Warning
    ensures status == "completed" ==> badge == Info
    ensures badge == Default <==> status !in KnownStatuses
    ensures badge != Error
  {
    match status
    case "active" => Success
    case "pending" => Warning
    case "completed" => Info
    case _ => Default
  }

  /** The three known statuses get three different badges, so the badge tells the status back. */
  lemma StatusColorDistinguishesKnownStatuses(s: string, t: string)
    requires s in KnownStatuses && t in KnownStatuses && s != t
    ensures StatusColor(s) != StatusColor(t)
  {
  }

  class Page {
    var projects: seq<Project>
    var form: ProjectForm
    var current: Option<Project>

    /** Project ids are pairwise distinct. */
    ghost predicate UniqueIds()
      reads this
    {
      NoDuplicates(Keys(projects, ProjectKey))
    }

    constructor ()
      ensures projects == [] && form == InitialForm && current == None
    {
      projects := [];
      form := InitialForm;
      current := None;
    }

    /** The initial load replaces the project list. */
    method Load(seedProjects: seq<Project>)
      modifies this
      ensures projects == seedProjects && form == old(form) && current == old(current)
    {
      projects := seedProjects;
    }

    /**
     Sets the picked project to any record: a row's click, edit or delete
     button picking that row, and the edit dialog's field setters, which
     replace the picked record by a copy with other fields but the same id.
     */
    method Pick(p: Project)
      modifies this
      ensures current == Some(p)
      ensures projects == old(projects) && form == old(form)
    {
      current := Some(p);
    }

    /**
     Appends one project built from the form under an id one above the
     largest existing id, then puts the form back to its initial values.
     */
    method CreateProject(createdAt: Timestamp)
      requires |projects| > 0
      modifies this
      ensures projects == old(projects) + [FromForm(old(form), NextId(old(projects), ProjectKey), createdAt)]
      ensures forall i :: 0 <= i < |old(projects)| ==> projects[i] == old(projects)[i]
      ensures forall i :: 0 <= i < |old(projects)| ==> old(projects)[i].id != projects[|old(projects)|].id
      ensures old(UniqueIds()) ==> UniqueIds()
      ensures form == InitialForm
      ensures current == old(current)
    {
      var newId := NextId(projects, ProjectKey);
      var projectToAdd := FromForm(form, newId, createdAt);
      if UniqueIds() {
        AppendNextIdKeepsKeysUnique(projects, ProjectKey, projectToAdd);
      }
      projects := projects + [projectToAdd];
      form := ProjectForm("", "", "pending", "1.0.0");
    }

    /** Writes the picked project over every project with its id; without a pick nothing changes. */
    method EditProject()
      modifies this
      ensures projects == match old(current)
                          case None => old(projects)
                          case Some(p) => ReplaceMatching(old(projects), ProjectKey, p)
      ensures |projects| == |old(projects)|
      ensures old(UniqueIds()) ==> UniqueIds()
      ensures current == None
      ensures form == old(form)
    {
      if current.Some? {
        ReplaceMatchingKeepsKeys(projects, ProjectKey, current.value);
        projects := ReplaceMatching(projects, ProjectKey, current.value);
        current := None;
      }
    }

    /** Removes every project with the picked project's id; platforms are not touched. */
    method DeleteProject()
      modifies this
      ensures projects == match old(current)
                          case None => old(projects)
                          case Some(p) => FilterOut(old(projects), ProjectKey, p.id)
      ensures old(current).Some? ==> forall i :: 0 <= i < |projects| ==> projects[i].id != old(current).value.id
      ensures old(UniqueIds()) ==> UniqueIds()
      ensures current == None
      ensures form == old(form)
    {
      if current.Some? {
        var id := current.value.id;
        var updated := FilterOut(projects, ProjectKey, id);
        if UniqueIds() {
          FilterOutKeepsKeysUnique(projects, ProjectKey, id);
          assert NoDuplicates(Keys(updated, ProjectKey));
        }
        projects := updated;
        current := None;
      }
    }
  }
}
