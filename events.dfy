/** What the partition module makes observable besides its fields and the
    store: change notifications to its observers, and diagnostics. */
module Events {
  import opened Choices

  /** One change notification, in the order they are emitted. */
  datatype Notification =
    | InstallChoiceChanged(install: InstallChoice)
    | SwapChoiceChanged(swap: SwapChoice)
    | EraseModeFilesystemChanged(fsName: string)

  /** One diagnostic; none of them stops configuration loading. */
  datatype Warning =
    | MixedSwapSettings
    | DeprecatedSetting(key: string)
    | EmptyUserSwapChoices(names: seq<string>)
    | UnsupportedSwapChoice(name: string)
    | InitialSwapChoiceNotOffered
    | InvalidInstallChoice(n: int)
    | InvalidSwapChoice(n: int)
}
