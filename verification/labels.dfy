/** The owner label (controllers/backplaneconfig_controller.go, ensureResourceOwnership). */
module Labels {
  const OWNER := "backplaneconfig.name"

  function LabelOf(labels: map<string, string>): string {
    if OWNER in labels then labels[OWNER] else ""
  }

  /** May the engine with this name and adoption policy change an object with these labels? */
  predicate MayManage(labels: map<string, string>, name: string, adopts: bool) {
    LabelOf(labels) == name || (LabelOf(labels) == "" && adopts)
  }
}
