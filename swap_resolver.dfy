/** Resolution of the allowed swap choices from a configuration that may use
    the legacy booleans `ensureSuspendToDisk` / `neverCreateSwap`, the list
    `userSwapChoices`, or both. */
module SwapResolver {
  import opened NamedEnum
  import opened Choices
  import opened Values
  import opened Events

  const UserSwapChoicesKey := "userSwapChoices"
  const EnsureSuspendToDiskKey := "ensureSuspendToDisk"
  const NeverCreateSwapKey := "neverCreateSwap"

  /** The swap choices named by recognised entries of `names`. */
  function RecognisedSwapChoices(names: seq<string>): set<SwapChoice>
  {
    NamedValues(SwapChoiceNames, names)
  }

  /** The choices the list allows before unsupported ones are stripped:
      the recognised ones, or FullSwap when none is recognised. */
  function UserSwapChoiceSet(names: seq<string>): set<SwapChoice>
  {
    var found := RecognisedSwapChoices(names);
    if found == {} then {FullSwap} else found
  }

  /** The single choice the legacy booleans stand for, by priority. */
  function LegacySwapChoice(ensureSuspendToDisk: bool, neverCreateSwap: bool): SwapChoice
  {
    if neverCreateSwap then NoSwap
    else if ensureSuspendToDisk then FullSwap
    else SmallSwap
  }

  /** The set before ReuseSwap is stripped. */
  function UnstrippedSwapChoices(cfg: ConfigMap): set<SwapChoice>
  {
    if UserSwapChoicesKey in cfg then UserSwapChoiceSet(AsStringList(cfg[UserSwapChoicesKey]))
    else {LegacySwapChoice(GetBool(cfg, EnsureSuspendToDiskKey, true),
                           GetBool(cfg, NeverCreateSwapKey, false))}
  }

  /** The allowed swap choices a configuration resolves to. */
  function ResolvedSwapChoices(cfg: ConfigMap): (r: set<SwapChoice>)
    ensures ReuseSwap !in r
  {
    UnstrippedSwapChoices(cfg) - {ReuseSwap}
  }

  /** The diagnostics resolution emits, in order. */
  function SwapChoiceWarnings(cfg: ConfigMap): seq<Warning>
  {
    LegacyKeyWarnings(cfg) + EmptyListWarnings(cfg) + UnsupportedChoiceWarnings(cfg)
  }

  /** Mixing both schemas is reported, then each legacy key that is used. */
  function LegacyKeyWarnings(cfg: ConfigMap): seq<Warning>
  {
    (if UserSwapChoicesKey in cfg && (EnsureSuspendToDiskKey in cfg || NeverCreateSwapKey in cfg)
     then [MixedSwapSettings] else [])
    + (if EnsureSuspendToDiskKey in cfg then [DeprecatedSetting(EnsureSuspendToDiskKey)] else [])
    + (if NeverCreateSwapKey in cfg then [DeprecatedSetting(NeverCreateSwapKey)] else [])
  }

  /** A list that names no choice is reported. */
  function EmptyListWarnings(cfg: ConfigMap): seq<Warning>
  {
    if UserSwapChoicesKey in cfg && RecognisedSwapChoices(AsStringList(cfg[UserSwapChoicesKey])) == {}
    then [EmptyUserSwapChoices(AsStringList(cfg[UserSwapChoicesKey]))] else []
  }

  /** A request for ReuseSwap is reported. */
  function UnsupportedChoiceWarnings(cfg: ConfigMap): seq<Warning>
  {
    if ReuseSwap in UnstrippedSwapChoices(cfg) then [UnsupportedSwapChoice(SwapChoiceName(ReuseSwap))] else []
  }

  /** Inserts, entry by entry, every choice that an entry of `names` names. */
  method CollectSwapChoices(names: seq<string>) returns (choices: set<SwapChoice>)
    ensures choices == RecognisedSwapChoices(names)
  {
    choices := {};
    var i := 0;
    while i < |names|
      invariant 0 <= i <= |names|
      invariant choices == RecognisedSwapChoices(names[..i])
    {
      var found := SwapChoiceByName(names[i]);
      if found.ok {
        choices := choices + {found.value};
      }
      NamedValuesStep(SwapChoiceNames, names, i);
      i := i + 1;
    }
    assert names[..|names|] == names;
  }

  /** Reports a configuration mixing both schemas, then each legacy key used. */
  method WarnLegacySettings(cfg: ConfigMap) returns (log: seq<Warning>)
    ensures log == LegacyKeyWarnings(cfg)
  {
    log := [];
    if UserSwapChoicesKey in cfg && (EnsureSuspendToDiskKey in cfg || NeverCreateSwapKey in cfg) {
      log := log + [MixedSwapSettings];
    }
    if EnsureSuspendToDiskKey in cfg {
      log := log + [DeprecatedSetting(EnsureSuspendToDiskKey)];
    }
    if NeverCreateSwapKey in cfg {
      log := log + [DeprecatedSetting(NeverCreateSwapKey)];
    }
  }

  /** Resolves the allowed swap choices, collecting them entry by entry. */
  method GetSwapChoices(cfg: ConfigMap) returns (choices: set<SwapChoice>, log: seq<Warning>)
    ensures choices == ResolvedSwapChoices(cfg)
    ensures log == SwapChoiceWarnings(cfg)
  {
    log := WarnLegacySettings(cfg);
    var ensureSuspendToDisk := GetBool(cfg, EnsureSuspendToDiskKey, true);
    var neverCreateSwap := GetBool(cfg, NeverCreateSwapKey, false);

    choices := {};
    if UserSwapChoicesKey in cfg {
      var names := AsStringList(cfg[UserSwapChoicesKey]);
      choices := CollectSwapChoices(names);
      if choices == {} {
        log := log + [EmptyUserSwapChoices(names)];
        choices := choices + {FullSwap};
      }
      // Recomputed for consistency with the legacy settings and not read
      // afterwards; "exactly one choice, and it is NoSwap" is `choices == {NoSwap}`.
      ensureSuspendToDisk := FullSwap in choices;
      neverCreateSwap := choices == {NoSwap};
    } else {
      if neverCreateSwap {
        choices := choices + {NoSwap};
      } else if ensureSuspendToDisk {
        choices := choices + {FullSwap};
      } else {
        choices := choices + {SmallSwap};
      }
    }
    assert choices == UnstrippedSwapChoices(cfg);
    assert log == LegacyKeyWarnings(cfg) + EmptyListWarnings(cfg);

    if ReuseSwap in choices {
      log := log + [UnsupportedSwapChoice(SwapChoiceName(ReuseSwap))];
      choices := choices - {ReuseSwap};
    }
  }

  /** A choice is recognised exactly when some entry of the list names it. */
  lemma RecognisedSwapChoicesMembers(names: seq<string>, v: SwapChoice)
    ensures v in RecognisedSwapChoices(names) <==>
              exists i :: 0 <= i < |names| && SwapChoiceByName(names[i]) == Lookup(v, true)
  {
    NamedValuesMembers(SwapChoiceNames, names, v);
  }

  /** Without `userSwapChoices` the legacy booleans give exactly one choice:
      NoSwap if `neverCreateSwap`, else FullSwap if `ensureSuspendToDisk`
      (true by default), else SmallSwap. */
  lemma LegacySwapChoices(cfg: ConfigMap)
    requires UserSwapChoicesKey !in cfg
    ensures |ResolvedSwapChoices(cfg)| == 1
    ensures GetBool(cfg, NeverCreateSwapKey, false) ==> ResolvedSwapChoices(cfg) == {NoSwap}
    ensures !GetBool(cfg, NeverCreateSwapKey, false) && GetBool(cfg, EnsureSuspendToDiskKey, true) ==>
              ResolvedSwapChoices(cfg) == {FullSwap}
    ensures !GetBool(cfg, NeverCreateSwapKey, false) && !GetBool(cfg, EnsureSuspendToDiskKey, true) ==>
              ResolvedSwapChoices(cfg) == {SmallSwap}
    ensures NeverCreateSwapKey !in cfg && EnsureSuspendToDiskKey !in cfg ==>
              ResolvedSwapChoices(cfg) == {FullSwap}
  {
    var c := LegacySwapChoice(GetBool(cfg, EnsureSuspendToDiskKey, true), GetBool(cfg, NeverCreateSwapKey, false));
    assert {c} - {ReuseSwap} == {c};
  }

  /** With `userSwapChoices` present the legacy booleans do not matter: two
      configurations with the same list resolve alike. */
  lemma ModernIgnoresLegacy(cfg: ConfigMap, other: ConfigMap)
    requires UserSwapChoicesKey in cfg && UserSwapChoicesKey in other
    requires cfg[UserSwapChoicesKey] == other[UserSwapChoicesKey]
    ensures ResolvedSwapChoices(cfg) == ResolvedSwapChoices(other)
  {
  }

  /** With `userSwapChoices` present, a choice is allowed exactly when it is not
      ReuseSwap and some entry names it, or no entry is recognised and it is FullSwap. */
  lemma ModernSwapChoices(cfg: ConfigMap, v: SwapChoice)
    requires UserSwapChoicesKey in cfg
    ensures var names := AsStringList(cfg[UserSwapChoicesKey]);
            v in ResolvedSwapChoices(cfg) <==>
              v != ReuseSwap &&
              ((exists i :: 0 <= i < |names| && SwapChoiceByName(names[i]) == Lookup(v, true)) ||
               ((forall i :: 0 <= i < |names| ==> !SwapChoiceByName(names[i]).ok) && v == FullSwap))
  {
    var names := AsStringList(cfg[UserSwapChoicesKey]);
    RecognisedSwapChoicesMembers(names, v);
    if RecognisedSwapChoices(names) != {} {
      var w :| w in RecognisedSwapChoices(names);
      RecognisedSwapChoicesMembers(names, w);
    } else if exists i :: 0 <= i < |names| && SwapChoiceByName(names[i]).ok {
      var i :| 0 <= i < |names| && SwapChoiceByName(names[i]).ok;
      RecognisedSwapChoicesMembers(names, SwapChoiceByName(names[i]).value);
      assert false;
    }
  }

  /** Before the strip the list's set is never empty. */
  lemma UserSwapChoiceSetNonEmpty(names: seq<string>)
    ensures UserSwapChoiceSet(names) != {}
  {
  }

  /** The resolved set is empty exactly when `userSwapChoices` is present and
      ReuseSwap is the only choice it names: the fallback to FullSwap is taken
      before ReuseSwap is stripped. */
  lemma ResolvedEmptyIff(cfg: ConfigMap)
    ensures ResolvedSwapChoices(cfg) == {} <==>
              UserSwapChoicesKey in cfg &&
              RecognisedSwapChoices(AsStringList(cfg[UserSwapChoicesKey])) == {ReuseSwap}
  {
    if UserSwapChoicesKey in cfg {
      var found := RecognisedSwapChoices(AsStringList(cfg[UserSwapChoicesKey]));
      if found == {} {
        assert FullSwap in ResolvedSwapChoices(cfg);
      } else {
        assert ResolvedSwapChoices(cfg) == found - {ReuseSwap};
        if found - {ReuseSwap} == {} {
          forall w | w in found ensures w == ReuseSwap {
            assert w !in found - {ReuseSwap};
          }
          assert found == {ReuseSwap};
        }
      }
    } else {
      var c := LegacySwapChoice(GetBool(cfg, EnsureSuspendToDiskKey, true), GetBool(cfg, NeverCreateSwapKey, false));
      assert c in ResolvedSwapChoices(cfg);
    }
  }

  /** `userSwapChoices = ["reuse"]` resolves to the empty set. */
  lemma ReuseOnlyResolvesEmpty()
    ensures ResolvedSwapChoices(map[UserSwapChoicesKey := ListV(["reuse"])]) == {}
  {
    var names := ["reuse"];
    SwapChoiceNamesListed();
    SwapChoiceNameRoundTrip(ReuseSwap);
    assert names[..0] == [];
    assert RecognisedSwapChoices(names) == {ReuseSwap};
    ResolvedEmptyIff(map[UserSwapChoicesKey := ListV(names)]);
  }

  /** "suspend" names FullSwap and "reuse" names ReuseSwap. */
  lemma SuspendAndReuseRecognised()
    ensures RecognisedSwapChoices(["suspend", "reuse"]) == {FullSwap, ReuseSwap}
  {
    var names := ["suspend", "reuse"];
    SwapChoiceNamesListed();
    SwapChoiceNameRoundTrip(FullSwap);
    SwapChoiceNameRoundTrip(ReuseSwap);
    NamedValuesStep(SwapChoiceNames, names, 0);
    NamedValuesStep(SwapChoiceNames, names, 1);
    assert names[..0] == [] && names[..2] == names;
  }

  /** `userSwapChoices = ["suspend", "reuse"]` resolves to {FullSwap}. */
  lemma SuspendAndReuseResolved()
    ensures ResolvedSwapChoices(map[UserSwapChoicesKey := ListV(["suspend", "reuse"])]) == {FullSwap}
  {
    SuspendAndReuseRecognised();
  }

  /** Whenever ReuseSwap is requested it is reported as unsupported, by its name. */
  lemma ReuseRequestWarned(cfg: ConfigMap)
    requires ReuseSwap in UnstrippedSwapChoices(cfg)
    ensures UnsupportedSwapChoice("reuse") in SwapChoiceWarnings(cfg)
  {
    SwapChoiceNamesListed();
    var w := SwapChoiceWarnings(cfg);
    assert w[|w| - 1] == UnsupportedSwapChoice("reuse");
  }

  /** `userSwapChoices = ["suspend", "reuse"]` warns that ReuseSwap is unsupported. */
  lemma SuspendAndReuseWarned()
    ensures UnsupportedSwapChoice("reuse") in
              SwapChoiceWarnings(map[UserSwapChoicesKey := ListV(["suspend", "reuse"])])
  {
    var cfg := map[UserSwapChoicesKey := ListV(["suspend", "reuse"])];
    SuspendAndReuseRecognised();
    ReuseRequestWarned(cfg);
  }

  /** Mixing both schemas is reported exactly when the list and a legacy key
      are both present, and each legacy key is reported exactly when present. */
  lemma LegacyKeysWarned(cfg: ConfigMap)
    ensures MixedSwapSettings in SwapChoiceWarnings(cfg) <==>
              UserSwapChoicesKey in cfg && (EnsureSuspendToDiskKey in cfg || NeverCreateSwapKey in cfg)
    ensures DeprecatedSetting(EnsureSuspendToDiskKey) in SwapChoiceWarnings(cfg) <==> EnsureSuspendToDiskKey in cfg
    ensures DeprecatedSetting(NeverCreateSwapKey) in SwapChoiceWarnings(cfg) <==> NeverCreateSwapKey in cfg
  {
    var b, c := EmptyListWarnings(cfg), UnsupportedChoiceWarnings(cfg);
    assert MixedSwapSettings !in b + c;
    assert DeprecatedSetting(EnsureSuspendToDiskKey) !in b + c;
    assert DeprecatedSetting(NeverCreateSwapKey) !in b + c;
  }

  /** A list that names no choice is reported exactly when one is configured,
      and ReuseSwap is reported as unsupported exactly when it is requested. */
  lemma ListProblemsWarned(cfg: ConfigMap)
    ensures (exists w :: w in SwapChoiceWarnings(cfg) && w.EmptyUserSwapChoices?) <==>
              UserSwapChoicesKey in cfg && RecognisedSwapChoices(AsStringList(cfg[UserSwapChoicesKey])) == {}
    ensures UnsupportedSwapChoice("reuse") in SwapChoiceWarnings(cfg) <==> ReuseSwap in UnstrippedSwapChoices(cfg)
  {
    var a, b, c := LegacyKeyWarnings(cfg), EmptyListWarnings(cfg), UnsupportedChoiceWarnings(cfg);
    assert SwapChoiceWarnings(cfg) == a + b + c;
    assert forall w: Warning :: w in a + c ==> !w.EmptyUserSwapChoices?;
    if b != [] {
      assert b[0] in a + b + c;
    }
    SwapChoiceNamesListed();
    assert UnsupportedSwapChoice("reuse") !in a + b;
  }

  /** Mixing the list with a legacy key is reported first. */
  lemma MixedSettingsWarned(cfg: ConfigMap)
    requires UserSwapChoicesKey in cfg
    requires EnsureSuspendToDiskKey in cfg || NeverCreateSwapKey in cfg
    ensures SwapChoiceWarnings(cfg)[0] == MixedSwapSettings
  {
  }
}
