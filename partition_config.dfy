/** The partition module's configuration state: the current install and swap
    choices with their change notifications and publication into the global
    store, the erase-mode filesystem choice, the one-time load from a
    configuration map, and the best-effort publication of the required
    storage threshold. */
module PartitionConfig {
  import opened NamedEnum
  import opened Choices
  import opened Values
  import opened Events
  import opened SwapResolver

  const PartitionChoicesKey := "partitionChoices"
  const RequiredStorageKey := "requiredStorage"
  const RequiredStorageGiBKey := "requiredStorageGiB"
  const InitialPartitioningChoiceKey := "initialPartitioningChoice"
  const InitialSwapChoiceKey := "initialSwapChoice"
  const AllowManualPartitioningKey := "allowManualPartitioning"
  const AvailableFileSystemTypesKey := "availableFileSystemTypes"
  const RequiredPartitionTableTypeKey := "requiredPartitionTableType"
  const FirmwareTypeKey := "firmwareType"
  const EfiSystemPartitionKey := "efiSystemPartition"
  const EfiSystemPartitionSizeKey := "efiSystemPartitionSize"
  const EfiSystemPartitionNameKey := "efiSystemPartitionName"

  /** The record published under `partitionChoices`: both choices by name. */
  function PartitionChoicesRecord(install: InstallChoice, swap: SwapChoice): Value
  {
    RecordV(map["install" := InstallChoiceName(install), "swap" := SwapChoiceName(swap)])
  }

  /** The published record reads back as the two choices it was made from. */
  lemma PartitionChoicesRecordReadsBack(install: InstallChoice, swap: SwapChoice)
    ensures var r := PartitionChoicesRecord(install, swap);
            r.RecordV? && r.fields.Keys == {"install", "swap"} &&
            InstallChoiceByName(r.fields["install"]) == Lookup(install, true) &&
            SwapChoiceByName(r.fields["swap"]) == Lookup(swap, true)
  {
    InstallChoiceNameRoundTrip(install);
    SwapChoiceNameRoundTrip(swap);
  }

  /** Publishes both choices into the store, when there is a store. */
  method UpdateGlobalStorage(install: InstallChoice, swap: SwapChoice, gs: GlobalStorage?)
    modifies gs
    ensures gs != null ==> gs.data == old(gs.data)[PartitionChoicesKey := PartitionChoicesRecord(install, swap)]
  {
    if gs != null {
      gs.Insert(PartitionChoicesKey, PartitionChoicesRecord(install, swap));
    }
  }

  /** The store after the EFI setup is published into it: the firmware type,
      the EFI system partition's mount point (by default /boot/efi), and its
      size and name only when they are configured. */
  function WithEfiConfiguration(store: map<string, Value>, cfg: ConfigMap, isEfiSystem: bool): map<string, Value>
  {
    var base := store[FirmwareTypeKey := StringV(if isEfiSystem then "efi" else "bios")]
                     [EfiSystemPartitionKey := StringV(GetString(cfg, EfiSystemPartitionKey, "/boot/efi"))];
    var withSize := if EfiSystemPartitionSizeKey in cfg
                    then base[EfiSystemPartitionSizeKey := StringV(GetString(cfg, EfiSystemPartitionSizeKey, ""))]
                    else base;
    if EfiSystemPartitionNameKey in cfg
    then withSize[EfiSystemPartitionNameKey := StringV(GetString(cfg, EfiSystemPartitionNameKey, ""))]
    else withSize
  }

  /** What publishing the EFI setup writes, and that it leaves every other key alone. */
  lemma EfiConfigurationPublished(store: map<string, Value>, cfg: ConfigMap, isEfiSystem: bool)
    ensures var r := WithEfiConfiguration(store, cfg, isEfiSystem);
            && r.Keys == store.Keys + {FirmwareTypeKey, EfiSystemPartitionKey}
                         + (if EfiSystemPartitionSizeKey in cfg then {EfiSystemPartitionSizeKey} else {})
                         + (if EfiSystemPartitionNameKey in cfg then {EfiSystemPartitionNameKey} else {})
            && r[FirmwareTypeKey] == StringV(if isEfiSystem then "efi" else "bios")
            && (EfiSystemPartitionKey !in cfg ==> r[EfiSystemPartitionKey] == StringV("/boot/efi"))
            && (EfiSystemPartitionKey in cfg && cfg[EfiSystemPartitionKey].StringV? ==>
                  r[EfiSystemPartitionKey] == cfg[EfiSystemPartitionKey])
            && (EfiSystemPartitionSizeKey in cfg && cfg[EfiSystemPartitionSizeKey].StringV? ==>
                  r[EfiSystemPartitionSizeKey] == cfg[EfiSystemPartitionSizeKey])
            && (EfiSystemPartitionNameKey in cfg && cfg[EfiSystemPartitionNameKey].StringV? ==>
                  r[EfiSystemPartitionNameKey] == cfg[EfiSystemPartitionNameKey])
            && (forall k :: k in store && k !in EfiKeys ==> r[k] == store[k])
  {
  }

  /** Every key the EFI setup may be published under. */
  const EfiKeys: set<string> := {FirmwareTypeKey, EfiSystemPartitionKey, EfiSystemPartitionSizeKey, EfiSystemPartitionNameKey}

  /** Publishes the EFI setup into the store. */
  method FillGSConfigurationEFI(gs: GlobalStorage, cfg: ConfigMap, isEfiSystem: bool)
    modifies gs
    ensures gs.data == WithEfiConfiguration(old(gs.data), cfg, isEfiSystem)
  {
    var firmwareType := if isEfiSystem then "efi" else "bios";
    gs.Insert(FirmwareTypeKey, StringV(firmwareType));
    gs.Insert(EfiSystemPartitionKey, StringV(GetString(cfg, EfiSystemPartitionKey, "/boot/efi")));
    if EfiSystemPartitionSizeKey in cfg {
      gs.Insert(EfiSystemPartitionSizeKey, StringV(GetString(cfg, EfiSystemPartitionSizeKey, "")));
    }
    if EfiSystemPartitionNameKey in cfg {
      gs.Insert(EfiSystemPartitionNameKey, StringV(GetString(cfg, EfiSystemPartitionNameKey, "")));
    }
  }

  /** The store after the required storage threshold is offered to it: added
      when the threshold is set (not negative) and the store has none yet. */
  function WithRequiredStorage(store: map<string, Value>, requiredStorageGiB: real): (r: map<string, Value>)
    ensures forall k :: k in store ==> k in r && r[k] == store[k]
    ensures r.Keys == store.Keys + (if requiredStorageGiB >= 0.0 then {RequiredStorageGiBKey} else {})
    ensures RequiredStorageGiBKey !in store && requiredStorageGiB >= 0.0 ==>
              r[RequiredStorageGiBKey] == NumberV(requiredStorageGiB)
  {
    if requiredStorageGiB >= 0.0 && RequiredStorageGiBKey !in store
    then store[RequiredStorageGiBKey := NumberV(requiredStorageGiB)]
    else store
  }

  /** Offering the threshold twice has the effect of offering it once. */
  lemma WithRequiredStorageIdempotent(store: map<string, Value>, requiredStorageGiB: real)
    ensures WithRequiredStorage(WithRequiredStorage(store, requiredStorageGiB), requiredStorageGiB)
            == WithRequiredStorage(store, requiredStorageGiB)
  {
  }

  /** The initial swap choice a configuration asks for, replaced by PickOne's
      choice when it is not among the offered choices. */
  function InitialSwapChoice(cfg: ConfigMap, offered: set<SwapChoice>): SwapChoice
  {
    var configured := SwapChoiceByName(GetString(cfg, InitialSwapChoiceKey, "")).value;
    if configured in offered then configured else PickOne(offered)
  }

  /** The initial swap choice is always an offered one (NoSwap when none is
      offered), and is the configured one whenever that is offered. */
  lemma InitialSwapChoiceOffered(cfg: ConfigMap, offered: set<SwapChoice>)
    ensures var r := InitialSwapChoice(cfg, offered);
            && (offered != {} ==> r in offered)
            && (offered == {} ==> r == NoSwap)
            && (SwapChoiceByName(GetString(cfg, InitialSwapChoiceKey, "")).value in offered ==>
                  r == SwapChoiceByName(GetString(cfg, InitialSwapChoiceKey, "")).value)
  {
  }

  /** `initialSwapChoice = "file"` with `userSwapChoices = ["suspend"]` starts on FullSwap. */
  lemma InitialSwapChoiceFallsBack()
    ensures var cfg := map[UserSwapChoicesKey := ListV(["suspend"]), InitialSwapChoiceKey := StringV("file")];
            ResolvedSwapChoices(cfg) == {FullSwap} &&
            InitialSwapChoice(cfg, ResolvedSwapChoices(cfg)) == FullSwap
  {
    var cfg := map[UserSwapChoicesKey := ListV(["suspend"]), InitialSwapChoiceKey := StringV("file")];
    SwapChoiceNamesListed();
    SwapChoiceNameRoundTrip(FullSwap);
    NamedValuesStep(SwapChoiceNames, ["suspend"], 0);
    assert ["suspend"][..0] == [] && ["suspend"][..1] == ["suspend"];
    assert ResolvedSwapChoices(cfg) == {FullSwap};
  }

  /** The notification a selection of install choice `c` emits: one, when it changes the choice. */
  function InstallChoiceNotifications(previous: InstallChoice, c: InstallChoice): seq<Notification>
  {
    if c != previous then [InstallChoiceChanged(c)] else []
  }

  /** The notification a selection of swap choice `c` emits: one, when it changes the choice. */
  function SwapChoiceNotifications(previous: SwapChoice, c: SwapChoice): seq<Notification>
  {
    if c != previous then [SwapChoiceChanged(c)] else []
  }

  /** The store after install choice `c` is selected while `swap` is the swap choice. */
  function WithInstallChoice(store: map<string, Value>, previous: InstallChoice, c: InstallChoice,
                             swap: SwapChoice): map<string, Value>
  {
    if c != previous then store[PartitionChoicesKey := PartitionChoicesRecord(c, swap)] else store
  }

  /** The store after swap choice `c` is selected while `install` is the install choice. */
  function WithSwapChoice(store: map<string, Value>, install: InstallChoice, previous: SwapChoice,
                          c: SwapChoice): map<string, Value>
  {
    if c != previous then store[PartitionChoicesKey := PartitionChoicesRecord(install, c)] else store
  }

  /** Selecting the current install choice changes nothing; selecting another
      one emits exactly one notification and publishes a record that reads
      back as the new pair, leaving every other key of the store alone. */
  lemma InstallChoiceSelected(store: map<string, Value>, previous: InstallChoice, c: InstallChoice,
                              swap: SwapChoice)
    ensures c == previous ==>
              InstallChoiceNotifications(previous, c) == [] && WithInstallChoice(store, previous, c, swap) == store
    ensures c != previous ==>
              var r := WithInstallChoice(store, previous, c, swap);
              && InstallChoiceNotifications(previous, c) == [InstallChoiceChanged(c)]
              && PartitionChoicesKey in r
              && InstallChoiceByName(r[PartitionChoicesKey].fields["install"]) == Lookup(c, true)
              && SwapChoiceByName(r[PartitionChoicesKey].fields["swap"]) == Lookup(swap, true)
    ensures forall k :: k in store && k != PartitionChoicesKey ==>
              k in WithInstallChoice(store, previous, c, swap) && WithInstallChoice(store, previous, c, swap)[k] == store[k]
  {
    PartitionChoicesRecordReadsBack(c, swap);
  }

  /** The same for selecting a swap choice. */
  lemma SwapChoiceSelected(store: map<string, Value>, install: InstallChoice, previous: SwapChoice,
                           c: SwapChoice)
    ensures c == previous ==>
              SwapChoiceNotifications(previous, c) == [] && WithSwapChoice(store, install, previous, c) == store
    ensures c != previous ==>
              var r := WithSwapChoice(store, install, previous, c);
              && SwapChoiceNotifications(previous, c) == [SwapChoiceChanged(c)]
              && PartitionChoicesKey in r
              && InstallChoiceByName(r[PartitionChoicesKey].fields["install"]) == Lookup(install, true)
              && SwapChoiceByName(r[PartitionChoicesKey].fields["swap"]) == Lookup(c, true)
    ensures forall k :: k in store && k != PartitionChoicesKey ==>
              k in WithSwapChoice(store, install, previous, c) && WithSwapChoice(store, install, previous, c)[k] == store[k]
  {
    PartitionChoicesRecordReadsBack(install, c);
  }

  /** After selecting an install choice and then a swap choice, the store holds
      the pair when either selection changed something, and is untouched otherwise. */
  lemma PartitionChoicesPublished(store: map<string, Value>, oldInstall: InstallChoice, install: InstallChoice,
                                  oldSwap: SwapChoice, swap: SwapChoice)
    ensures var r := WithSwapChoice(WithInstallChoice(store, oldInstall, install, oldSwap), install, oldSwap, swap);
            && (install == oldInstall && swap == oldSwap ==> r == store)
            && (install != oldInstall || swap != oldSwap ==>
                  r == store[PartitionChoicesKey := PartitionChoicesRecord(install, swap)])
  {
    var first := WithInstallChoice(store, oldInstall, install, oldSwap);
    var pair := PartitionChoicesRecord(install, swap);
    if install != oldInstall && swap != oldSwap {
      assert first == store[PartitionChoicesKey := PartitionChoicesRecord(install, oldSwap)];
      assert first[PartitionChoicesKey := pair] == store[PartitionChoicesKey := pair];
    } else if install != oldInstall {
      assert first == store[PartitionChoicesKey := pair];
    }
  }

  /** The diagnostic for an initial swap choice that is not allowed. */
  function InitialSwapWarnings(cfg: ConfigMap, offered: set<SwapChoice>): seq<Warning>
  {
    if SwapChoiceByName(GetString(cfg, InitialSwapChoiceKey, "")).value !in offered
    then [InitialSwapChoiceNotOffered] else []
  }

  /** The erase-mode filesystems after loading: the configured list when the key is present. */
  function ErasableFileSystems(cfg: ConfigMap, previous: seq<string>): seq<string>
  {
    if AvailableFileSystemTypesKey in cfg then GetStringList(cfg, AvailableFileSystemTypesKey) else previous
  }

  /** The erase-mode filesystem choice after loading: the first configured one, if any. */
  function EraseFsTypeChoiceAfterLoad(cfg: ConfigMap, previous: string): (r: string)
    ensures AvailableFileSystemTypesKey in cfg && GetStringList(cfg, AvailableFileSystemTypesKey) != [] ==>
              r == GetStringList(cfg, AvailableFileSystemTypesKey)[0]
    ensures AvailableFileSystemTypesKey !in cfg || GetStringList(cfg, AvailableFileSystemTypesKey) == [] ==>
              r == previous
  {
    var fsTypes := ErasableFileSystems(cfg, []);
    if AvailableFileSystemTypesKey in cfg && fsTypes != [] then fsTypes[0] else previous
  }

  /** Loading emits a filesystem notification whenever a non-empty list is configured. */
  function EraseFsNotifications(cfg: ConfigMap): seq<Notification>
  {
    if AvailableFileSystemTypesKey in cfg && GetStringList(cfg, AvailableFileSystemTypesKey) != []
    then [EraseModeFilesystemChanged(GetStringList(cfg, AvailableFileSystemTypesKey)[0])] else []
  }

  /** The partition module's configuration. */
  class Config {
    var installChoice: InstallChoice
    var swapChoice: SwapChoice
    var initialInstallChoice: InstallChoice
    var initialSwapChoice: SwapChoice
    var swapChoices: set<SwapChoice>
    var eraseFsTypeChoice: string
    var eraseFsTypes: seq<string>
    var requiredPartitionTableType: seq<string>
    var allowManualPartitioning: bool
    var requiredStorageGiB: real
    /** Notifications emitted to observers, oldest first. */
    var notifications: seq<Notification>
    /** Diagnostics emitted, oldest first. */
    var warnings: seq<Warning>

    constructor ()
      ensures installChoice == NoChoice && swapChoice == NoSwap
      ensures initialInstallChoice == NoChoice && initialSwapChoice == NoSwap
      ensures swapChoices == {} && eraseFsTypeChoice == "" && eraseFsTypes == []
      ensures requiredPartitionTableType == [] && allowManualPartitioning
      ensures requiredStorageGiB == -1.0
      ensures notifications == [] && warnings == []
    {
      installChoice, swapChoice := NoChoice, NoSwap;
      initialInstallChoice, initialSwapChoice := NoChoice, NoSwap;
      swapChoices := {};
      eraseFsTypeChoice, eraseFsTypes := "", [];
      requiredPartitionTableType := [];
      allowManualPartitioning := true;
      requiredStorageGiB := -1.0;
      notifications, warnings := [], [];
    }

    /** Selects an install choice; a change is notified and published. */
    method SetInstallChoice(c: InstallChoice, gs: GlobalStorage?)
      modifies this`installChoice, this`notifications, gs
      ensures installChoice == c
      ensures notifications == old(notifications) + InstallChoiceNotifications(old(installChoice), c)
      ensures gs != null ==> gs.data == WithInstallChoice(old(gs.data), old(installChoice), c, swapChoice)
    {
      if c != installChoice {
        installChoice := c;
        notifications := notifications + [InstallChoiceChanged(c)];
        UpdateGlobalStorage(c, swapChoice, gs);
      }
    }

    /** Selects an install choice by its integer encoding; an out-of-range
        value is reported and replaced by NoChoice. */
    method SetInstallChoiceOrdinal(n: int, gs: GlobalStorage?)
      modifies this`installChoice, this`notifications, this`warnings, gs
      ensures installChoice == InstallChoiceFromInt(n)
      ensures warnings == old(warnings) +
                (if n < InstallChoiceOrdinal(NoChoice) || n > InstallChoiceOrdinal(Manual)
                 then [InvalidInstallChoice(n)] else [])
      ensures notifications == old(notifications) + InstallChoiceNotifications(old(installChoice), installChoice)
      ensures gs != null ==> gs.data == WithInstallChoice(old(gs.data), old(installChoice), installChoice, swapChoice)
    {
      var c := n;
      if c < InstallChoiceOrdinal(NoChoice) || c > InstallChoiceOrdinal(Manual) {
        warnings := warnings + [InvalidInstallChoice(c)];
        c := InstallChoiceOrdinal(NoChoice);
      }
      SetInstallChoice(InstallChoiceFromInt(c), gs);
    }

    /** Selects a swap choice; a change is notified and published. */
    method SetSwapChoice(c: SwapChoice, gs: GlobalStorage?)
      modifies this`swapChoice, this`notifications, gs
      ensures swapChoice == c
      ensures notifications == old(notifications) + SwapChoiceNotifications(old(swapChoice), c)
      ensures gs != null ==> gs.data == WithSwapChoice(old(gs.data), installChoice, old(swapChoice), c)
    {
      if c != swapChoice {
        swapChoice := c;
        notifications := notifications + [SwapChoiceChanged(c)];
        UpdateGlobalStorage(installChoice, c, gs);
      }
    }

    /** Selects a swap choice by its integer encoding; an out-of-range value
        is reported and replaced by NoSwap. */
    method SetSwapChoiceOrdinal(n: int, gs: GlobalStorage?)
      modifies this`swapChoice, this`notifications, this`warnings, gs
      ensures swapChoice == SwapChoiceFromInt(n)
      ensures warnings == old(warnings) +
                (if n < SwapChoiceOrdinal(NoSwap) || n > SwapChoiceOrdinal(SwapFile)
                 then [InvalidSwapChoice(n)] else [])
      ensures notifications == old(notifications) + SwapChoiceNotifications(old(swapChoice), swapChoice)
      ensures gs != null ==> gs.data == WithSwapChoice(old(gs.data), installChoice, old(swapChoice), swapChoice)
    {
      var c := n;
      if c < SwapChoiceOrdinal(NoSwap) || c > SwapChoiceOrdinal(SwapFile) {
        warnings := warnings + [InvalidSwapChoice(c)];
        c := SwapChoiceOrdinal(NoSwap);
      }
      SetSwapChoice(SwapChoiceFromInt(c), gs);
    }

    /** Selects the erase-mode filesystem by its canonical name; a change is notified. */
    method SetEraseFsTypeChoice(choice: string, canonicalFilesystemName: string -> string)
      modifies this`eraseFsTypeChoice, this`notifications
      ensures eraseFsTypeChoice == canonicalFilesystemName(choice)
      ensures eraseFsTypeChoice == old(eraseFsTypeChoice) ==> notifications == old(notifications)
      ensures eraseFsTypeChoice != old(eraseFsTypeChoice) ==>
                notifications == old(notifications) + [EraseModeFilesystemChanged(eraseFsTypeChoice)]
    {
      var canonicalChoice := canonicalFilesystemName(choice);
      if canonicalChoice != eraseFsTypeChoice {
        eraseFsTypeChoice := canonicalChoice;
        notifications := notifications + [EraseModeFilesystemChanged(canonicalChoice)];
      }
    }

    /** Loads the configuration map, once, at startup: first the swap
        settings and the initial choices, then the erase-mode filesystems and
        the settings published straight into the store. Every field it sets
        is stated, and so are the notifications, diagnostics and store
        entries it produces, in order. */
    method SetConfigurationMap(cfg: ConfigMap, gs: GlobalStorage, isEfiSystem: bool)
      modifies this, gs
      ensures ReuseSwap !in swapChoices
      ensures requiredStorageGiB == GetNumber(cfg, RequiredStorageKey, -1.0)
      ensures swapChoices == ResolvedSwapChoices(cfg)
      ensures initialInstallChoice == InstallChoiceByName(GetString(cfg, InitialPartitioningChoiceKey, "")).value
      ensures installChoice == initialInstallChoice
      ensures initialSwapChoice == InitialSwapChoice(cfg, swapChoices)
      ensures swapChoice == initialSwapChoice
      ensures swapChoices != {} ==> swapChoice in swapChoices
      ensures allowManualPartitioning == GetBool(cfg, AllowManualPartitioningKey, true)
      ensures eraseFsTypes == ErasableFileSystems(cfg, old(eraseFsTypes))
      ensures eraseFsTypeChoice == EraseFsTypeChoiceAfterLoad(cfg, old(eraseFsTypeChoice))
      ensures requiredPartitionTableType == GetStringList(cfg, RequiredPartitionTableTypeKey)
      ensures notifications == old(notifications) + InstallChoiceNotifications(old(installChoice), installChoice)
                                + SwapChoiceNotifications(old(swapChoice), swapChoice) + EraseFsNotifications(cfg)
      ensures warnings == old(warnings) + SwapChoiceWarnings(cfg) + InitialSwapWarnings(cfg, swapChoices)
      ensures gs.data == WithEfiConfiguration(
                           WithSwapChoice(WithInstallChoice(old(gs.data), old(installChoice), installChoice,
                                                            old(swapChoice)),
                                          installChoice, old(swapChoice), swapChoice)
                             [RequiredPartitionTableTypeKey := ListV(requiredPartitionTableType)],
                           cfg, isEfiSystem)
    {
      LoadSwapAndChoices(cfg, gs);
      LoadPartitioningSettings(cfg, gs, isEfiSystem);
    }

    /** The swap settings, then the initial choices they constrain. */
    method LoadSwapAndChoices(cfg: ConfigMap, gs: GlobalStorage)
      modifies this`requiredStorageGiB, this`swapChoices, this`initialInstallChoice, this`installChoice
      modifies this`initialSwapChoice, this`swapChoice, this`notifications, this`warnings, gs
      ensures ReuseSwap !in swapChoices
      ensures requiredStorageGiB == GetNumber(cfg, RequiredStorageKey, -1.0)
      ensures swapChoices == ResolvedSwapChoices(cfg)
      ensures initialInstallChoice == InstallChoiceByName(GetString(cfg, InitialPartitioningChoiceKey, "")).value
      ensures installChoice == initialInstallChoice
      ensures initialSwapChoice == InitialSwapChoice(cfg, swapChoices)
      ensures swapChoice == initialSwapChoice
      ensures swapChoices != {} ==> swapChoice in swapChoices
      ensures notifications == old(notifications) + InstallChoiceNotifications(old(installChoice), installChoice)
                                + SwapChoiceNotifications(old(swapChoice), swapChoice)
      ensures warnings == old(warnings) + SwapChoiceWarnings(cfg) + InitialSwapWarnings(cfg, swapChoices)
      ensures gs.data == WithSwapChoice(WithInstallChoice(old(gs.data), old(installChoice), installChoice,
                                                          old(swapChoice)),
                                        installChoice, old(swapChoice), swapChoice)
    {
      LoadSwapSettings(cfg);
      ApplyInitialChoices(cfg, gs);
      InitialSwapChoiceOffered(cfg, swapChoices);
    }

    /** The erase-mode filesystems, then the settings published straight into the store. */
    method LoadPartitioningSettings(cfg: ConfigMap, gs: GlobalStorage, isEfiSystem: bool)
      modifies this`allowManualPartitioning, this`eraseFsTypes, this`eraseFsTypeChoice, this`notifications
      modifies this`requiredPartitionTableType, gs
      ensures allowManualPartitioning == GetBool(cfg, AllowManualPartitioningKey, true)
      ensures eraseFsTypes == ErasableFileSystems(cfg, old(eraseFsTypes))
      ensures eraseFsTypeChoice == EraseFsTypeChoiceAfterLoad(cfg, old(eraseFsTypeChoice))
      ensures notifications == old(notifications) + EraseFsNotifications(cfg)
      ensures requiredPartitionTableType == GetStringList(cfg, RequiredPartitionTableTypeKey)
      ensures gs.data == WithEfiConfiguration(
                           old(gs.data)[RequiredPartitionTableTypeKey := ListV(requiredPartitionTableType)],
                           cfg, isEfiSystem)
    {
      LoadEraseSettings(cfg);
      PublishStoreSettings(cfg, gs, isEfiSystem);
    }

    /** The required storage threshold (unset, -1, by default) and the allowed swap choices. */
    method LoadSwapSettings(cfg: ConfigMap)
      modifies this`requiredStorageGiB, this`swapChoices, this`warnings
      ensures ReuseSwap !in swapChoices
      ensures requiredStorageGiB == GetNumber(cfg, RequiredStorageKey, -1.0)
      ensures swapChoices == ResolvedSwapChoices(cfg)
      ensures warnings == old(warnings) + SwapChoiceWarnings(cfg)
    {
      requiredStorageGiB := GetNumber(cfg, RequiredStorageKey, -1.0);
      var resolved, log := GetSwapChoices(cfg);
      swapChoices := resolved;
      warnings := warnings + log;
    }

    /** Applies the configured initial install choice and the configured
        initial swap choice, the latter replaced by PickOne's when it is not
        an allowed choice. */
    method ApplyInitialChoices(cfg: ConfigMap, gs: GlobalStorage)
      modifies this`initialInstallChoice, this`installChoice, this`initialSwapChoice, this`swapChoice
      modifies this`notifications, this`warnings, gs
      ensures initialInstallChoice == InstallChoiceByName(GetString(cfg, InitialPartitioningChoiceKey, "")).value
      ensures installChoice == initialInstallChoice
      ensures initialSwapChoice == InitialSwapChoice(cfg, swapChoices)
      ensures swapChoice == initialSwapChoice
      ensures notifications == old(notifications) + InstallChoiceNotifications(old(installChoice), installChoice)
                                + SwapChoiceNotifications(old(swapChoice), swapChoice)
      ensures warnings == old(warnings) + InitialSwapWarnings(cfg, swapChoices)
      ensures gs.data == WithSwapChoice(WithInstallChoice(old(gs.data), old(installChoice), installChoice,
                                                          old(swapChoice)),
                                        installChoice, old(swapChoice), swapChoice)
    {
      initialInstallChoice := InstallChoiceByName(GetString(cfg, InitialPartitioningChoiceKey, "")).value;
      SetInstallChoice(initialInstallChoice, gs);

      initialSwapChoice := SwapChoiceByName(GetString(cfg, InitialSwapChoiceKey, "")).value;
      if initialSwapChoice !in swapChoices {
        warnings := warnings + [InitialSwapChoiceNotOffered];
        initialSwapChoice := PickOne(swapChoices);
      }
      SetSwapChoice(initialSwapChoice, gs);
    }

    /** Whether manual partitioning is allowed (by default it is), and the
        erase-mode filesystems with the first of them chosen. */
    method LoadEraseSettings(cfg: ConfigMap)
      modifies this`allowManualPartitioning, this`eraseFsTypes, this`eraseFsTypeChoice, this`notifications
      ensures allowManualPartitioning == GetBool(cfg, AllowManualPartitioningKey, true)
      ensures eraseFsTypes == ErasableFileSystems(cfg, old(eraseFsTypes))
      ensures eraseFsTypeChoice == EraseFsTypeChoiceAfterLoad(cfg, old(eraseFsTypeChoice))
      ensures notifications == old(notifications) + EraseFsNotifications(cfg)
    {
      allowManualPartitioning := GetBool(cfg, AllowManualPartitioningKey, true);

      if AvailableFileSystemTypesKey in cfg {
        var fsTypes := GetStringList(cfg, AvailableFileSystemTypesKey);
        eraseFsTypes := fsTypes;
        if fsTypes != [] {
          eraseFsTypeChoice := eraseFsTypes[0];
          notifications := notifications + [EraseModeFilesystemChanged(eraseFsTypeChoice)];
        }
      }
    }

    /** Publishes the required partition-table types verbatim, then the EFI setup. */
    method PublishStoreSettings(cfg: ConfigMap, gs: GlobalStorage, isEfiSystem: bool)
      modifies this`requiredPartitionTableType, gs
      ensures requiredPartitionTableType == GetStringList(cfg, RequiredPartitionTableTypeKey)
      ensures gs.data == WithEfiConfiguration(
                           old(gs.data)[RequiredPartitionTableTypeKey := ListV(requiredPartitionTableType)],
                           cfg, isEfiSystem)
    {
      requiredPartitionTableType := GetStringList(cfg, RequiredPartitionTableTypeKey);
      gs.Insert(RequiredPartitionTableTypeKey, ListV(requiredPartitionTableType));

      FillGSConfigurationEFI(gs, cfg, isEfiSystem);
    }

    /** Offers the required storage threshold to the store, never overwriting
        a value some other module has put there. */
    method FillGSSecondaryConfiguration(gs: GlobalStorage?)
      modifies gs
      ensures gs != null ==> gs.data == WithRequiredStorage(old(gs.data), requiredStorageGiB)
    {
      if requiredStorageGiB >= 0.0 && gs != null {
        var present := gs.Contains(RequiredStorageGiBKey);
        if !present {
          gs.Insert(RequiredStorageGiBKey, NumberV(requiredStorageGiB));
        }
      }
    }
  }
}
