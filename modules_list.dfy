/** The decisions one row of the modules list takes: the switch, the state
    indicator, the update button, the remove/restore button and the version sheet. */
module ModulesList {
  import opened Wrappers
  import opened LocalModel
  import VM = ModulesViewModel

  datatype Icon = Trash | DeviceMobileDown | Rotate
  datatype ButtonText = ModuleRemove | ModuleRestore

  /** The `RemoveOrRestore` button: its enablement, icon and label. */
  datatype RemoveOrRestore = RemoveOrRestore(enabled: bool, icon: Icon, text: ButtonText)

  /** Everything `ModuleItem` decides for one row. `updateButton` is `None` when the
      button is absent and `Some(enabled)` otherwise. */
  datatype ItemView = ItemView(
    switchChecked: bool,
    switchEnabled: bool,
    indicator: Option<Icon>,
    updateButton: Option<bool>,
    removeOrRestore: RemoveOrRestore,
    showsVersionSheet: bool)

  function StateIndicator(state: State): Option<Icon>
  {
    match state
    case REMOVE => Some(Trash)
    case UPDATE => Some(DeviceMobileDown)
    case _ => None
  }

  function RemoveOrRestoreButton(m: LocalModule, enabled: bool): RemoveOrRestore
  {
    RemoveOrRestore(enabled,
      if m.state == REMOVE then Rotate else Trash,
      if m.state == REMOVE then ModuleRestore else ModuleRemove)
  }

  /** `ModuleItem(module, isProviderAlive, isProviderKsu, ...)`: `item` is the cached
      version item and `open` the row's remembered sheet flag. */
  function ModuleItem(m: LocalModule, isProviderAlive: bool, isProviderKsu: bool, item: Option<VersionItem>, open: bool): ItemView
  {
    ItemView(
      m.state == ENABLE,
      isProviderAlive,
      StateIndicator(m.state),
      if item.Some? then Some(item.value.versionCode > m.versionCode) else None,
      RemoveOrRestoreButton(m,
        match m.state
        case REMOVE => isProviderAlive && !isProviderKsu
        case _ => isProviderAlive),
      open && item.Some?)
  }

  /** The switch shows ENABLE and is usable exactly while the provider is alive. */
  lemma SwitchDecisions(m: LocalModule, alive: bool, ksu: bool, item: Option<VersionItem>, open: bool)
    ensures var v := ModuleItem(m, alive, ksu, item, open);
      (v.switchChecked <==> m.state == ENABLE) && (v.switchEnabled <==> alive)
  {
  }

  /** Flipping the switch asks for the opposite of what it shows: a checked switch
      disables the module, an unchecked one enables it. */
  lemma SwitchMatchesToggle(m: LocalModule, alive: bool, ksu: bool, item: Option<VersionItem>, open: bool)
    ensures var v := ModuleItem(m, alive, ksu, item, open);
      var r := VM.Resolve(VM.CreateUiState(m).toggle, ksu);
      r.Some? ==> r.value == VM.Request(if v.switchChecked then VM.Disable else VM.Enable, m.id)
  {
  }

  /** Only staged states carry an indicator: a trash can for REMOVE, a download for UPDATE. */
  lemma IndicatorDecisions(m: LocalModule, alive: bool, ksu: bool, item: Option<VersionItem>, open: bool)
    ensures var v := ModuleItem(m, alive, ksu, item, open);
      (v.indicator == Some(Trash) <==> m.state == REMOVE)
      && (v.indicator == Some(DeviceMobileDown) <==> m.state == UPDATE)
      && (v.indicator == None <==> m.state == ENABLE || m.state == DISABLE)
  {
  }

  /** The trash indicator and the struck-through name go together. */
  lemma IndicatorMatchesUiState(m: LocalModule, alive: bool, ksu: bool, item: Option<VersionItem>, open: bool)
    ensures (ModuleItem(m, alive, ksu, item, open).indicator == Some(Trash))
      == (VM.CreateUiState(m).decoration == VM.LineThrough)
  {
  }

  /** The update button exists only with a version item, and is usable only for a newer version. */
  lemma UpdateButtonDecisions(m: LocalModule, alive: bool, ksu: bool, item: Option<VersionItem>, open: bool)
    ensures var v := ModuleItem(m, alive, ksu, item, open);
      (v.updateButton.Some? <==> item.Some?)
      && (v.updateButton == Some(true) <==> item.Some? && item.value.versionCode > m.versionCode)
  {
  }

  /** The version sheet needs both the open flag and an item. */
  lemma VersionSheetDecision(m: LocalModule, alive: bool, ksu: bool, item: Option<VersionItem>, open: bool)
    ensures ModuleItem(m, alive, ksu, item, open).showsVersionSheet <==> open && item.Some?
  {
  }

  /** The version sheet can only be open on a row that shows the update button. */
  lemma SheetNeedsUpdateButton(m: LocalModule, alive: bool, ksu: bool, item: Option<VersionItem>, open: bool)
    ensures var v := ModuleItem(m, alive, ksu, item, open);
      v.showsVersionSheet ==> v.updateButton.Some?
  {
  }

  /** The button offers restoring exactly for a staged removal, with a matching icon and
      label; it needs a live provider, and for REMOVE also a backend other than KernelSU. */
  lemma RemoveOrRestoreDecisions(m: LocalModule, alive: bool, ksu: bool, item: Option<VersionItem>, open: bool)
    ensures var b := ModuleItem(m, alive, ksu, item, open).removeOrRestore;
      (b.text == ModuleRestore <==> m.state == REMOVE)
      && (b.icon == Rotate <==> b.text == ModuleRestore)
      && (b.icon == Trash <==> b.text == ModuleRemove)
      && (b.enabled <==> alive && (m.state == REMOVE ==> !ksu))
  {
  }

  /** The list and the view-model agree on REMOVE: with `isProviderKsu` as the
      view-model computes it, the restore button is usable exactly when pressing it
      asks the module manager to enable the module. */
  lemma RestoreButtonMatchesPolicy(m: LocalModule, alive: bool, ksu: bool, item: Option<VersionItem>, open: bool)
    requires m.state == REMOVE
    ensures var b := ModuleItem(m, alive, VM.IsProviderKsu(alive, ksu), item, open).removeOrRestore;
      var r := VM.Resolve(VM.CreateUiState(m).change, ksu);
      (b.enabled <==> alive && r.Some?)
      && (r.Some? ==> r.value == VM.Request(VM.Enable, m.id))
      && (alive && ksu ==> !b.enabled && r == None)
  {
  }

  /** Whenever the remove/restore button is usable for an ENABLE, DISABLE or REMOVE
      module, pressing it issues a request the module manager permits. */
  lemma UsableButtonsArePermitted(m: LocalModule, alive: bool, ksu: bool, item: Option<VersionItem>, open: bool)
    requires m.state != UPDATE
    ensures var v := ModuleItem(m, alive, VM.IsProviderKsu(alive, ksu), item, open);
      var r := VM.Resolve(VM.CreateUiState(m).change, ksu);
      v.removeOrRestore.enabled ==> r.Some? && r.value.id == m.id && VM.Permitted(m.state, r.value.op, ksu)
  {
  }

  /** For a module staged for update the Remove button is usable while the provider is
      alive, yet its closure is the view-model's no-op. */
  lemma UpdateRemoveButtonIsInert(m: LocalModule, alive: bool, ksu: bool, item: Option<VersionItem>, open: bool)
    requires m.state == UPDATE
    ensures ModuleItem(m, alive, ksu, item, open).removeOrRestore.enabled == alive
    ensures VM.Resolve(VM.CreateUiState(m).change, ksu) == None
    ensures VM.Resolve(VM.CreateUiState(m).toggle, ksu) == None
  {
  }
}
