/**
 The records the Platforms and Projects pages keep in their state. Ids are the
 numbers the pages read with `parseInt`; timestamps are the ISO strings the
 pages stamp on create and are never interpreted.
 */
module Entities {
  import opened Records

  type Timestamp = string

  /** A project: `status` is kept as the raw string the page stores, so values outside the three known ones can be represented. */
  datatype Project = Project(
    id: nat,
    name: string,
    description: string,
    status: string,
    version: string,
    createdAt: Timestamp)

  /**
   A platform with the fields the Platforms page reads and writes. `projectId`
   is None while it holds the empty string the form starts with.
   */
  datatype Platform = Platform(
    id: nat,
    name: string,
    urn: string,
    platformType: string,
    projectId: Option<nat>,
    applicationVersionId: string,
    createdAt: Timestamp)

  function ProjectKey(p: Project): nat { p.id }

  function PlatformKey(p: Platform): nat { p.id }

  function PlatformProject(p: Platform): Option<nat> { p.projectId }
}
