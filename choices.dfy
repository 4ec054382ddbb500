/** The two choice enumerations of the partition module, their name tables,
    the range-checked conversion from a raw integer, and the tie-break rule
    that picks one swap choice out of a set. */
module Choices {
  import opened NamedEnum

  /** The user's overall partitioning strategy. */
  datatype InstallChoice = NoChoice | Alongside | Erase | Replace | Manual

  /** One swap-provisioning strategy. */
  datatype SwapChoice = NoSwap | SmallSwap | FullSwap | ReuseSwap | SwapFile

  /** The install-choice names; "none" and "nochoice" both name NoChoice, "none" first. */
  const InstallChoiceNames: Table<InstallChoice> :=
    [("none", NoChoice), ("nochoice", NoChoice), ("alongside", Alongside),
     ("erase", Erase), ("replace", Replace), ("manual", Manual)]

  /** The swap-choice names, one per value. */
  const SwapChoiceNames: Table<SwapChoice> :=
    [("none", NoSwap), ("small", SmallSwap), ("suspend", FullSwap),
     ("reuse", ReuseSwap), ("file", SwapFile)]

  function InstallChoiceByName(name: string): (r: Lookup<InstallChoice>)
    ensures !r.ok ==> r.value == NoChoice
  {
    FindByName(InstallChoiceNames, name)
  }

  function InstallChoiceName(c: InstallChoice): string
  {
    FindByValue(InstallChoiceNames, c)
  }

  function SwapChoiceByName(name: string): (r: Lookup<SwapChoice>)
    ensures !r.ok ==> r.value == NoSwap
  {
    FindByName(SwapChoiceNames, name)
  }

  function SwapChoiceName(c: SwapChoice): string
  {
    FindByValue(SwapChoiceNames, c)
  }

  /** Every install choice is named, and its canonical name reads back as itself. */
  lemma InstallChoiceNameRoundTrip(c: InstallChoice)
    ensures InstallChoiceByName(InstallChoiceName(c)) == Lookup(c, true)
  {
    var t := InstallChoiceNames;
    assert NamesDistinct(t) by {
      forall i, j | 0 <= i < j < |t| ensures t[i].0 != t[j].0 {
        assert t[i].0[..2] != t[j].0[..2] || |t[i].0| != |t[j].0|;
      }
    }
    match c
    case NoChoice => assert t[0].1 == c;
    case Alongside => assert t[2].1 == c;
    case Erase => assert t[3].1 == c;
    case Replace => assert t[4].1 == c;
    case Manual => assert t[5].1 == c;
    RoundTrip(t, c);
  }

  /** Every swap choice is named, and its name reads back as itself. */
  lemma SwapChoiceNameRoundTrip(c: SwapChoice)
    ensures SwapChoiceByName(SwapChoiceName(c)) == Lookup(c, true)
  {
    var t := SwapChoiceNames;
    assert NamesDistinct(t) by {
      forall i, j | 0 <= i < j < |t| ensures t[i].0 != t[j].0 {
        assert t[i].0[1] != t[j].0[1];
      }
    }
    match c
    case NoSwap => assert t[0].1 == c;
    case SmallSwap => assert t[1].1 == c;
    case FullSwap => assert t[2].1 == c;
    case ReuseSwap => assert t[3].1 == c;
    case SwapFile => assert t[4].1 == c;
    RoundTrip(t, c);
  }

  /** The canonical name of each swap choice. */
  lemma SwapChoiceNamesListed()
    ensures SwapChoiceName(NoSwap) == "none"
    ensures SwapChoiceName(SmallSwap) == "small"
    ensures SwapChoiceName(FullSwap) == "suspend"
    ensures SwapChoiceName(ReuseSwap) == "reuse"
    ensures SwapChoiceName(SwapFile) == "file"
  {
    assert IndexOfValue(SwapChoiceNames, SwapFile, 0) == 4;
  }

  /** "none" and "nochoice" are aliases of NoChoice, whose canonical name is "none". */
  lemma InstallChoiceAliases()
    ensures InstallChoiceByName("none") == Lookup(NoChoice, true)
    ensures InstallChoiceByName("nochoice") == Lookup(NoChoice, true)
    ensures InstallChoiceName(NoChoice) == "none"
  {
    assert IndexOfName(InstallChoiceNames, "nochoice", 0) == 1 by {
      assert InstallChoiceNames[0].0 != "nochoice" by {
        assert |InstallChoiceNames[0].0| != |"nochoice"|;
      }
    }
  }

  /** The enumerators' integer encodings, in the order the program's header
      declares them: install choices as listed above, swap choices with
      ReuseSwap second. The first and last enumerators bound the valid range. */
  function InstallChoiceOrdinal(c: InstallChoice): int
  {
    match c
    case NoChoice => 0
    case Alongside => 1
    case Erase => 2
    case Replace => 3
    case Manual => 4
  }

  function SwapChoiceOrdinal(c: SwapChoice): int
  {
    match c
    case NoSwap => 0
    case ReuseSwap => 1
    case SmallSwap => 2
    case FullSwap => 3
    case SwapFile => 4
  }

  /** Out-of-range integers are replaced by the first enumerator; in-range ones
      convert to the enumerator they encode. */
  function InstallChoiceFromInt(n: int): (r: InstallChoice)
    ensures InstallChoiceOrdinal(NoChoice) <= n <= InstallChoiceOrdinal(Manual) ==>
              InstallChoiceOrdinal(r) == n
    ensures n < InstallChoiceOrdinal(NoChoice) || n > InstallChoiceOrdinal(Manual) ==>
              r == NoChoice
  {
    if n < InstallChoiceOrdinal(NoChoice) || n > InstallChoiceOrdinal(Manual) then NoChoice
    else if n == 0 then NoChoice
    else if n == 1 then Alongside
    else if n == 2 then Erase
    else if n == 3 then Replace
    else Manual
  }

  function SwapChoiceFromInt(n: int): (r: SwapChoice)
    ensures SwapChoiceOrdinal(NoSwap) <= n <= SwapChoiceOrdinal(SwapFile) ==>
              SwapChoiceOrdinal(r) == n
    ensures n < SwapChoiceOrdinal(NoSwap) || n > SwapChoiceOrdinal(SwapFile) ==>
              r == NoSwap
  {
    if n < SwapChoiceOrdinal(NoSwap) || n > SwapChoiceOrdinal(SwapFile) then NoSwap
    else if n == 0 then NoSwap
    else if n == 1 then ReuseSwap
    else if n == 2 then SmallSwap
    else if n == 3 then FullSwap
    else SwapFile
  }

  /** The first member of a non-empty set in iteration order, which is taken
      to be declaration order. */
  function FirstMember(s: set<SwapChoice>): (r: SwapChoice)
    requires s != {}
    ensures r in s
  {
    if NoSwap in s then NoSwap
    else if SmallSwap in s then SmallSwap
    else if FullSwap in s then FullSwap
    else if ReuseSwap in s then ReuseSwap
    else
      assert forall c: SwapChoice :: c in s ==> c == SwapFile;
      SwapFile
  }

  /** Picks one swap choice: NoSwap for the empty set, otherwise a member
      (the rules for singletons and for sets holding NoSwap are PickOneRules). */
  function PickOne(s: set<SwapChoice>): (r: SwapChoice)
    ensures s == {} ==> r == NoSwap
    ensures s != {} ==> r in s
  {
    if |s| == 0 then NoSwap
    else if |s| == 1 then FirstMember(s)
    else if NoSwap in s then NoSwap
    else FirstMember(s)
  }

  /** PickOne answers NoSwap for the empty set, the only member of a
      singleton, and NoSwap whenever NoSwap is among several choices. */
  lemma PickOneRules(s: set<SwapChoice>)
    ensures s == {} ==> PickOne(s) == NoSwap
    ensures |s| == 1 ==> s == {PickOne(s)}
    ensures |s| > 1 && NoSwap in s ==> PickOne(s) == NoSwap
  {
    if |s| == 1 {
      var r := PickOne(s);
      assert |s - {r}| == 0;
    }
  }
}
