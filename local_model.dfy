/** The records the view-model and the module list share: a locally installed
    module, its lifecycle state and a remote version descriptor. */
module LocalModel {

  /** A module's stance for the next reboot. */
  datatype State = ENABLE | DISABLE | REMOVE | UPDATE

  /** A remote version of a module; only its version code drives a decision. */
  datatype VersionItem = VersionItem(version: string, versionCode: int)

  datatype LocalModule = LocalModule(
    id: string,
    name: string,
    version: string,
    versionCode: int,
    author: string,
    description: string,
    updateJson: string,
    state: State,
    lastUpdated: int)
}
