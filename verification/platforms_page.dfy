/**
 The Platforms page's state and handlers: the platform and project lists it
 loads, the create form, the platform picked for edit or delete, and the
 create/edit/delete handlers that rebuild the platform list.
 */
module PlatformsPage {
  import opened Records
  import opened Entities

  const UnknownProject: string := "Unknown Project"

  const DefaultPlatformType: string := "HQ Server"

  /** The create form's fields; `projectId` None is the form's initial empty selection. */
  datatype PlatformForm = PlatformForm(
    name: string,
    urn: string,
    platformType: string,
    projectId: Option<nat>,
    applicationVersionId: string)

  const InitialForm: PlatformForm := PlatformForm("", "", DefaultPlatformType, None, "")

  /** The platform a create adds: the form's fields plus the new id and time stamp. */
  function FromForm(f: PlatformForm, id: nat, createdAt: Timestamp): Platform
  {
    Platform(id, f.name, f.urn, f.platformType, f.projectId, f.applicationVersionId, createdAt)
  }

  /**
   The label shown for a platform's project: the name of the first project
   with that id, or "Unknown Project" when no project has it (or when the
   platform has no project selected).
   */
  function ProjectName(projects: seq<Project>, projectId: Option<nat>): (name: string)
    ensures projectId.None? ==> name == UnknownProject
    ensures projectId.Some? && (forall i :: 0 <= i < |projects| ==> projects[i].id != projectId.value) ==>
              name == UnknownProject
    ensures forall i :: 0 <= i < |projects| && projectId == Some(projects[i].id) &&
                        (forall j :: 0 <= j < i ==> projects[j].id != projects[i].id) ==>
                        name == projects[i].name
  {
    match projectId
    case None => UnknownProject
    case Some(id) =>
      var found := FindFirst(projects, ProjectKey, id);
      forall i | 0 <= i < |projects| && id == projects[i].id && (forall j :: 0 <= j < i ==> projects[j].id != id)
        ensures found == Some(projects[i])
      {
        FindFirstAt(projects, ProjectKey, id, i);
      }
      match found
      case None => UnknownProject
      case Some(p) => p.name
  }

  /** In a project list with every project of id `id` filtered out, the label for `id` is "Unknown Project". */
  lemma FilteredProjectNameIsUnknown(projects: seq<Project>, id: nat)
    ensures ProjectName(FilterOut(projects, ProjectKey, id), Some(id)) == UnknownProject
  {
  }

  class Page {
    var platforms: seq<Platform>
    var projects: seq<Project>
    var form: PlatformForm
    var current: Option<Platform>

    /** Platform ids are pairwise distinct. */
    ghost predicate UniqueIds()
      reads this
    {
      NoDuplicates(Keys(platforms, PlatformKey))
    }

    constructor ()
      ensures platforms == [] && projects == [] && form == InitialForm && current == None
    {
      platforms := [];
      projects := [];
      form := InitialForm;
      current := None;
    }

    /** The initial load: both lists are replaced; the form defaults to the first project, if any. */
    method Load(seedPlatforms: seq<Platform>, seedProjects: seq<Project>)
      modifies this
      ensures platforms == seedPlatforms && projects == seedProjects
      ensures form == if |seedProjects| > 0 then old(form).(projectId := Some(seedProjects[0].id)) else old(form)
      ensures current == old(current)
    {
      platforms := seedPlatforms;
      projects := seedProjects;
      if |seedProjects| > 0 {
        form := form.(projectId := Some(seedProjects[0].id));
      }
    }

    /**
     Sets the picked platform to any record: a row's click, edit or delete
     button picking that row, and the edit dialog's field setters, which
     replace the picked record by a copy with other fields but the same id.
     */
    method Pick(p: Platform)
      modifies this
      ensures current == Some(p)
      ensures platforms == old(platforms) && projects == old(projects) && form == old(form)
    {
      current := Some(p);
    }

    /**
     Appends one platform built from the form under an id one above the
     largest existing id, then clears the form except its project.
     */
    method CreatePlatform(createdAt: Timestamp)
      requires |platforms| > 0
      modifies this
      ensures platforms == old(platforms) + [FromForm(old(form), NextId(old(platforms), PlatformKey), createdAt)]
      ensures forall i :: 0 <= i < |old(platforms)| ==> platforms[i] == old(platforms)[i]
      ensures forall i :: 0 <= i < |old(platforms)| ==> old(platforms)[i].id != platforms[|old(platforms)|].id
      ensures old(UniqueIds()) ==> UniqueIds()
      ensures form == PlatformForm("", "", DefaultPlatformType, old(form).projectId, "")
      ensures projects == old(projects) && current == old(current)
    {
      var newId := NextId(platforms, PlatformKey);
      var platformToAdd := FromForm(form, newId, createdAt);
      if UniqueIds() {
        AppendNextIdKeepsKeysUnique(platforms, PlatformKey, platformToAdd);
      }
      platforms := platforms + [platformToAdd];
      form := PlatformForm("", "", DefaultPlatformType, form.projectId, "");
    }

    /** Writes the picked platform over every platform with its id; without a pick nothing changes. */
    method EditPlatform()
      modifies this
      ensures platforms == match old(current)
                           case None => old(platforms)
                           case Some(p) => ReplaceMatching(old(platforms), PlatformKey, p)
      ensures |platforms| == |old(platforms)|
      ensures old(UniqueIds()) ==> UniqueIds()
      ensures current == None
      ensures projects == old(projects) && form == old(form)
    {
      if current.Some? {
        ReplaceMatchingKeepsKeys(platforms, PlatformKey, current.value);
        platforms := ReplaceMatching(platforms, PlatformKey, current.value);
        current := None;
      }
    }

    /** Removes every platform with the picked platform's id; without a pick nothing changes. */
    method DeletePlatform()
      modifies this
      ensures platforms == match old(current)
                           case None => old(platforms)
                           case Some(p) => FilterOut(old(platforms), PlatformKey, p.id)
      ensures old(current).Some? ==> forall i :: 0 <= i < |platforms| ==> platforms[i].id != old(current).value.id
      ensures old(UniqueIds()) ==> UniqueIds()
      ensures current == None
      ensures projects == old(projects) && form == old(form)
    {
      if current.Some? {
        var id := current.value.id;
        var updated := FilterOut(platforms, PlatformKey, id);
        if UniqueIds() {
          FilterOutKeepsKeysUnique(platforms, PlatformKey, id);
          assert NoDuplicates(Keys(updated, PlatformKey));
        }
        platforms := updated;
        current := None;
      }
    }
  }
}
