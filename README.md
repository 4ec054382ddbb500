# Partition module configuration (Calamares)

This project models the configuration object of the Calamares installer's
partition module, `src/modules/partition/Config.cpp`. It covers:

- the name tables of the two choice enumerations (install choice and swap
  choice), looked up by name and by value;
- `pickOne`, which picks one swap choice out of a set;
- `getSwapChoices`, which resolves the allowed swap choices from the legacy
  booleans `ensureSuspendToDisk` / `neverCreateSwap` or from the list
  `userSwapChoices`, and strips the unsupported ReuseSwap;
- the setters for the install choice, the swap choice (each by value and by
  integer encoding) and the erase-mode filesystem, with their change
  notifications and the `partitionChoices` record they publish into the
  global store;
- `setConfigurationMap`, the one-time load of the module's settings, with
  the EFI setup it publishes (`fillGSConfigurationEFI`);
- `fillGSSecondaryConfiguration`, which offers the required storage
  threshold to the global store without ever overwriting it.

Modules:

- `NamedEnum` holds the generic table lookup.
- `Choices` holds the enumerations, their tables, the clamped integer
  conversions and `PickOne`.
- `Values` holds configuration values, the typed getters and the
  `GlobalStorage` store class.
- `Events` holds the notifications and diagnostics the module emits.
- `SwapResolver` holds swap-choice resolution: a method that works entry by
  entry, the function that specifies it, and lemmas about that function.
- `PartitionConfig` holds the `Config` class and the store-update functions
  its methods are specified by.

Signals become an append-only `notifications` log. Log messages become an
append-only `warnings` log. The global store is a `GlobalStorage` object
passed explicitly. It is nullable (`GlobalStorage?`) where the source checks
for a missing job queue, and non-null where the source dereferences it
unchecked (line 281).

The resolved swap set can be empty. When `userSwapChoices` names only
`reuse`, the fallback to FullSwap does not apply (the set is not empty yet),
and the strip that follows removes the only member. The model follows the
code here (`SwapResolver.ResolvedEmptyIff`, `SwapResolver.ReuseOnlyResolvesEmpty`).
`pickOne` and the `Config` class then still behave sensibly: the initial swap
choice becomes NoSwap.

## Model

| member | source | states |
|---|---|---|
| NamedEnum.IndexOfNameIsFirst | src/modules/partition/Config.cpp:103 | the search by name stops at the first entry carrying the name, and only there |
| NamedEnum.IndexOfValueIsFirst | src/modules/partition/Config.cpp:162-163 | the search by value stops at the first entry carrying the value, and only there |
| NamedEnum.FindByName | src/modules/partition/Config.cpp:253-255 | an unknown name yields the first entry's value with the success flag cleared |
| NamedEnum.FindByNameMeaning | src/modules/partition/Config.cpp:102-107 | a name lookup succeeds if and only if some entry has the name, and then yields the value of the first such entry |
| NamedEnum.FindByValueMeaning | src/modules/partition/Config.cpp:162-163 | a value lookup yields the name of the first entry carrying the value, and "" when none does |
| NamedEnum.RoundTrip | src/modules/partition/Config.cpp:24-46 | in a table with distinct names, looking up the name of a listed value gives the value back, successfully |
| NamedEnum.NamedValuesStep | src/modules/partition/Config.cpp:100-108 | one more list entry adds exactly the value it names, if any |
| NamedEnum.NamedValuesMembers | src/modules/partition/Config.cpp:100-108 | a value is collected from a list if and only if some entry of the list looks up to it |
| Choices.InstallChoiceByName | src/modules/partition/Config.cpp:24-34 | an unknown install-choice name falls back to NoChoice |
| Choices.SwapChoiceByName | src/modules/partition/Config.cpp:36-46 | an unknown swap-choice name falls back to NoSwap |
| Choices.InstallChoiceNameRoundTrip | src/modules/partition/Config.cpp:24-34 | every install choice has a name, and that name reads back as the same choice |
| Choices.SwapChoiceNameRoundTrip | src/modules/partition/Config.cpp:36-46 | every swap choice has a name, and that name reads back as the same choice |
| Choices.SwapChoiceNamesListed | src/modules/partition/Config.cpp:39-43 | the names of the five swap choices are none, small, suspend, reuse and file |
| Choices.InstallChoiceAliases | src/modules/partition/Config.cpp:27-28 | "none" and "nochoice" both name NoChoice, and "none" is its canonical name |
| Choices.InstallChoiceFromInt | src/modules/partition/Config.cpp:168-177 | an in-range integer converts to the enumerator it encodes; an out-of-range one becomes NoChoice |
| Choices.SwapChoiceFromInt | src/modules/partition/Config.cpp:190-199 | an in-range integer converts to the enumerator it encodes; an out-of-range one becomes NoSwap |
| Choices.FirstMember | src/modules/partition/Config.cpp:57 | the first member in iteration order belongs to the set |
| Choices.PickOne | src/modules/partition/Config.cpp:48-65 | the empty set gives NoSwap; a non-empty set gives one of its members |
| Choices.PickOneRules | src/modules/partition/Config.cpp:48-65 | the empty set gives NoSwap, a singleton gives its member, and a larger set holding NoSwap gives NoSwap |
| Values.GetBool | src/modules/partition/Config.cpp:85 | a missing key reads as the default |
| Values.GetString | src/modules/partition/Config.cpp:230 | a missing key reads as the default |
| Values.GetNumber | src/modules/partition/Config.cpp:250 | a missing key reads as the default |
| Values.GetStringList | src/modules/partition/Config.cpp:282 | a missing key reads as the empty list |
| Values.GlobalStorage.constructor | src/modules/partition/Config.cpp:158 | the store starts with the given contents |
| Values.GlobalStorage.Insert | src/modules/partition/Config.cpp:164 | an insert sets one key and leaves the others alone |
| Values.GlobalStorage.Contains | src/modules/partition/Config.cpp:294 | reports whether the key is present |
| SwapResolver.ResolvedSwapChoices | src/modules/partition/Config.cpp:138-152 | the resolved set never contains ReuseSwap |
| SwapResolver.CollectSwapChoices | src/modules/partition/Config.cpp:98-108 | the loop collects exactly the choices named by recognised entries of the list |
| SwapResolver.WarnLegacySettings | src/modules/partition/Config.cpp:75-90 | emits the legacy-key diagnostics of resolution, whose meaning LegacyKeysWarned states |
| SwapResolver.LegacyKeysWarned | src/modules/partition/Config.cpp:75-90 | mixing both schemas is reported if and only if the list and a legacy key are both present; each legacy key is reported as deprecated if and only if it is present |
| SwapResolver.ListProblemsWarned | src/modules/partition/Config.cpp:110-149 | a list naming no choice is reported if and only if such a list is configured; ReuseSwap is reported as unsupported, by the name "reuse", if and only if it is requested |
| SwapResolver.GetSwapChoices | src/modules/partition/Config.cpp:68-153 | returns the resolved set and the diagnostics of resolution, in order |
| SwapResolver.RecognisedSwapChoicesMembers | src/modules/partition/Config.cpp:100-108 | a choice is collected if and only if some entry of the list names it |
| SwapResolver.LegacySwapChoices | src/modules/partition/Config.cpp:121-136 | without the list there is exactly one choice: NoSwap if neverCreateSwap, else FullSwap if ensureSuspendToDisk (true by default), else SmallSwap |
| SwapResolver.ModernIgnoresLegacy | src/modules/partition/Config.cpp:94-120 | with the list present, two configurations with the same list resolve alike, whatever their legacy keys |
| SwapResolver.ModernSwapChoices | src/modules/partition/Config.cpp:94-149 | with the list present, a choice is allowed if and only if it is not ReuseSwap and some entry names it, or it is FullSwap and no entry is recognised |
| SwapResolver.UserSwapChoiceSetNonEmpty | src/modules/partition/Config.cpp:110-114 | before ReuseSwap is stripped, the set from the list is never empty |
| SwapResolver.ResolvedEmptyIff | src/modules/partition/Config.cpp:110-149 | the resolved set is empty if and only if the list is present and names ReuseSwap and nothing else |
| SwapResolver.ReuseOnlyResolvesEmpty | src/modules/partition/Config.cpp:98-149 | `userSwapChoices = ["reuse"]` resolves to the empty set |
| SwapResolver.SuspendAndReuseRecognised | src/modules/partition/Config.cpp:100-108 | the list ["suspend", "reuse"] names FullSwap and ReuseSwap |
| SwapResolver.SuspendAndReuseResolved | src/modules/partition/Config.cpp:94-152 | `userSwapChoices = ["suspend", "reuse"]` resolves to {FullSwap} |
| SwapResolver.ReuseRequestWarned | src/modules/partition/Config.cpp:141-149 | whenever ReuseSwap is requested, it is reported as unsupported under its name "reuse" |
| SwapResolver.SuspendAndReuseWarned | src/modules/partition/Config.cpp:141-149 | `userSwapChoices = ["suspend", "reuse"]` reports "reuse" as unsupported |
| SwapResolver.MixedSettingsWarned | src/modules/partition/Config.cpp:75-79 | a configuration mixing the list with a legacy key is reported first |
| PartitionConfig.PartitionChoicesRecordReadsBack | src/modules/partition/Config.cpp:161-163 | the published record has exactly the keys install and swap, and they read back as the two choices |
| PartitionConfig.UpdateGlobalStorage | src/modules/partition/Config.cpp:155-166 | with a store, the record of both choices is written under partitionChoices; without one, nothing happens |
| PartitionConfig.EfiConfigurationPublished | src/modules/partition/Config.cpp:223-243 | writes firmwareType (efi or bios) and efiSystemPartition (the configured string, else /boot/efi), writes the configured size and name strings only when those keys are configured, and leaves every other key alone |
| PartitionConfig.FillGSConfigurationEFI | src/modules/partition/Config.cpp:223-243 | the store afterwards is the old store with the EFI setup published |
| PartitionConfig.WithRequiredStorage | src/modules/partition/Config.cpp:288-298 | never overwrites or removes a key; adds requiredStorageGiB exactly when the threshold is not negative and the key is absent |
| PartitionConfig.WithRequiredStorageIdempotent | src/modules/partition/Config.cpp:288-298 | offering the threshold twice is the same as offering it once |
| PartitionConfig.InitialSwapChoiceOffered | src/modules/partition/Config.cpp:258-264 | the initial swap choice is an allowed one (NoSwap when none is allowed), and is the configured one whenever that is allowed |
| PartitionConfig.InitialSwapChoiceFallsBack | src/modules/partition/Config.cpp:258-264 | initialSwapChoice "file" with userSwapChoices ["suspend"] starts on FullSwap |
| PartitionConfig.InstallChoiceSelected | src/modules/partition/Config.cpp:179-188 | selecting the current install choice changes nothing; selecting another emits one notification and publishes a record that reads back as the new pair; other store keys are kept |
| PartitionConfig.SwapChoiceSelected | src/modules/partition/Config.cpp:201-210 | the same for selecting a swap choice |
| PartitionConfig.PartitionChoicesPublished | src/modules/partition/Config.cpp:256-265 | after both initial selections, the store holds the pair if either selection changed something, and is untouched otherwise |
| PartitionConfig.EraseFsTypeChoiceAfterLoad | src/modules/partition/Config.cpp:269-279 | a non-empty configured filesystem list makes its first entry the erase filesystem; otherwise the choice is kept |
| PartitionConfig.Config.constructor | src/modules/partition/Config.cpp:19-22 | a new configuration has no choices made, no swap choices offered and no threshold set |
| PartitionConfig.Config.SetInstallChoice | src/modules/partition/Config.cpp:179-188 | sets the install choice; a change is notified once and published with the current swap choice |
| PartitionConfig.Config.SetInstallChoiceOrdinal | src/modules/partition/Config.cpp:168-177 | an out-of-range integer is reported and replaced by NoChoice before it is selected |
| PartitionConfig.Config.SetSwapChoice | src/modules/partition/Config.cpp:201-210 | sets the swap choice; a change is notified once and published with the current install choice |
| PartitionConfig.Config.SetSwapChoiceOrdinal | src/modules/partition/Config.cpp:190-199 | an out-of-range integer is reported and replaced by NoSwap before it is selected |
| PartitionConfig.Config.SetEraseFsTypeChoice | src/modules/partition/Config.cpp:212-221 | the choice becomes the canonical name; a change is notified once, no change is silent |
| PartitionConfig.Config.SetConfigurationMap | src/modules/partition/Config.cpp:246-286 | every field set by the load, the allowed swap choices without ReuseSwap, a swap choice that is allowed whenever any is, and the notifications, diagnostics and store entries in order |
| PartitionConfig.Config.LoadSwapAndChoices | src/modules/partition/Config.cpp:250-265 | the swap settings and both initial choices, with the initial swap choice allowed whenever any is |
| PartitionConfig.Config.LoadSwapSettings | src/modules/partition/Config.cpp:250-251 | reads the threshold (default -1) and the resolved swap choices |
| PartitionConfig.Config.ApplyInitialChoices | src/modules/partition/Config.cpp:253-265 | selects the configured install choice, then the configured swap choice or PickOne's when it is not allowed, reporting that |
| PartitionConfig.Config.LoadPartitioningSettings | src/modules/partition/Config.cpp:267-285 | the manual-partitioning flag, the erase filesystems and the settings published into the store |
| PartitionConfig.Config.LoadEraseSettings | src/modules/partition/Config.cpp:267-279 | manual partitioning allowed by default; the configured filesystem list replaces the old one and its first entry is chosen and notified |
| PartitionConfig.Config.PublishStoreSettings | src/modules/partition/Config.cpp:281-285 | publishes the required partition-table types verbatim, then the EFI setup |
| PartitionConfig.Config.FillGSSecondaryConfiguration | src/modules/partition/Config.cpp:288-298 | the store afterwards is the old store with the threshold offered, so nothing is overwritten and a second call changes nothing |

## Left out

- Logging: `cWarning`/`cError` messages are entries of a `warnings` log. Their text is not modelled.
- Qt signals: they are entries of a `notifications` log. Observers and signal delivery are not modelled.
- `NamedEnumTable` is not part of this model. Its `find` by name is taken as an exact string comparison that stops at the first match. Its `find` by value is taken to return the first matching entry's name, or "" when none matches.
- Choices.FirstMember: the iteration order of `QSet` (used by `pickOne` through `s.begin()`) is unspecified. The model takes the order in which the `SwapChoice` datatype lists its constructors, and the contracts promise only membership.
- `Config.h` is not part of this model. The enumerators' integer encodings are assumed, not read from it: install choices NoChoice, Alongside, Erase, Replace, Manual as 0 to 4, and swap choices NoSwap, ReuseSwap, SmallSwap, FullSwap, SwapFile as 0 to 4, the order of the upstream Calamares header. The range check depends only on the first and last of each. The defaults in the constructor are likewise assumptions: no choice, NoSwap, empty lists, manual partitioning allowed, threshold -1.
- Values.GetBool, Values.GetString, Values.GetNumber, Values.GetStringList: `QVariant` conversions between types are simplified. A value of the wrong type reads as the default. A list read from a lone string is that one string, and from any other non-list value it is empty. The contracts state only the missing-key default.
- `PartUtils::canonicalFilesystemName` is an opaque function parameter of `SetEraseFsTypeChoice`.
- `PartUtils::isEfiSystem` is a boolean parameter.
- The job queue's global storage is a parameter, not a process-wide singleton.
- requiredStorage is a mathematical real, not a double.
- The locals `ensureSuspendToDisk` and `neverCreateSwap` are recomputed in the list branch of `getSwapChoices` (lines 118-119) but never read afterwards. The method keeps the assignments, and the specification function leaves them out.
- PartitionConfig.Config.SetConfigurationMap: the source's single function is split into step methods, one per group of lines, so that each is proved separately. The order of effects is the same.
- Unrecognised entries of `userSwapChoices` are silently ignored (lines 100-108), and the model does the same.
